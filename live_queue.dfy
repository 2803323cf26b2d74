/**
 * The live queue view: the queue position of a waiting patient (a priority
 * rank among the waiting patients of the same department), the estimated
 * wait derived from it, the ordering of the waiting list, and the
 * "Find My Position" search.
 */
module LiveQueue {
  import opened Common
  import opened Types
  import opened Sorting

  // ---------------------------------------------------------------------------
  // Queue position (getQueuePosition)
  // ---------------------------------------------------------------------------

  /** priorityOrder: emergency 0, high 1, medium 2, low 3 (smaller is served first). */
  function Rank(p: Priority): nat {
    match p
    case Emergency => 0
    case High => 1
    case Medium => 2
    case Low => 3
  }

  /** The comparator of getQueuePosition, priorityOrder[a] - priorityOrder[b] <= 0. */
  function RankLe(a: Patient, b: Patient): bool {
    Rank(a.priority) <= Rank(b.priority)
  }

  /** The waiting patients of a department, sorted the way getQueuePosition sorts them. */
  function RankedQueue(patients: seq<Patient>, dept: string): seq<Patient> {
    SortBy(WaitingIn(patients, dept), RankLe)
  }

  /** Array.prototype.findIndex by patient id: -1 when absent. */
  function IndexOfId(s: seq<Patient>, id: string): (r: int)
    ensures -1 <= r < |s|
    ensures r >= 0 ==> s[r].id == id && forall j :: 0 <= j < r ==> s[j].id != id
    ensures r == -1 <==> forall j :: 0 <= j < |s| ==> s[j].id != id
  {
    if s == [] then -1
    else if s[0].id == id then 0
    else
      var k := IndexOfId(s[1..], id);
      if k < 0 then -1 else k + 1
  }

  /**
   * getQueuePosition: null (None) for a patient who is not waiting; otherwise
   * one more than the index of the patient's id in the ranked queue of the
   * patient's department (0 when the id is not in that queue).
   */
  function QueuePosition(patients: seq<Patient>, p: Patient): (r: Option<nat>)
    ensures r.None? <==> p.status != Waiting
  {
    if p.status != Waiting then None
    else Some((IndexOfId(RankedQueue(patients, p.department), p.id) + 1) as nat)
  }

  /** The members of `s` whose priority has rank `k`, in order. */
  function WithRank(s: seq<Patient>, k: nat): (r: seq<Patient>)
    ensures |r| <= |s|
  {
    if s == [] then []
    else (if Rank(s[0].priority) == k then [s[0]] else []) + WithRank(s[1..], k)
  }

  lemma {:induction false} WithRankMembers(s: seq<Patient>, k: nat)
    ensures forall p :: p in WithRank(s, k) <==> p in s && Rank(p.priority) == k
  {
    if s != [] {
      WithRankMembers(s[1..], k);
      assert forall p :: p in s <==> p == s[0] || p in s[1..];
    }
  }

  /** The members of `s` whose rank is below `k`, bucket after bucket. */
  function Below(s: seq<Patient>, k: nat): seq<Patient> {
    if k == 0 then []
    else if k == 1 then WithRank(s, 0)
    else if k == 2 then WithRank(s, 0) + WithRank(s, 1)
    else if k == 3 then WithRank(s, 0) + WithRank(s, 1) + WithRank(s, 2)
    else WithRank(s, 0) + WithRank(s, 1) + WithRank(s, 2) + WithRank(s, 3)
  }

  /** The members of `s` whose rank is `k` or more, bucket after bucket. */
  function From(s: seq<Patient>, k: nat): seq<Patient> {
    if k == 0 then WithRank(s, 0) + WithRank(s, 1) + WithRank(s, 2) + WithRank(s, 3)
    else if k == 1 then WithRank(s, 1) + WithRank(s, 2) + WithRank(s, 3)
    else if k == 2 then WithRank(s, 2) + WithRank(s, 3)
    else if k == 3 then WithRank(s, 3)
    else []
  }

  /** The waiting patients of department `dept` whose priority has rank `k`, in array order. */
  function Bucket(s: seq<Patient>, dept: string, k: nat): seq<Patient> {
    WithRank(WaitingIn(s, dept), k)
  }

  lemma BelowRanks(s: seq<Patient>, k: nat)
    ensures forall p :: p in Below(s, k) ==> p in s && Rank(p.priority) < k
  {
    WithRankMembers(s, 0);
    WithRankMembers(s, 1);
    WithRankMembers(s, 2);
    WithRankMembers(s, 3);
  }

  lemma FromRanks(s: seq<Patient>, k: nat)
    ensures forall p :: p in From(s, k) ==> Rank(p.priority) >= k
  {
    WithRankMembers(s, 0);
    WithRankMembers(s, 1);
    WithRankMembers(s, 2);
    WithRankMembers(s, 3);
  }

  /** The four buckets, split around bucket `k`. */
  lemma BelowFrom(s: seq<Patient>, k: nat)
    requires k < 4
    ensures Below(s, 4) == Below(s, k) + WithRank(s, k) + From(s, k + 1)
  {
    var w0, w1, w2, w3 := WithRank(s, 0), WithRank(s, 1), WithRank(s, 2), WithRank(s, 3);
    if k == 0 {
      ConcatShapes(w0, w1, w2, w3);
      assert From(s, 1) == w1 + w2 + w3;
    } else if k == 1 {
      ConcatShapes(w0, w1, w2, w3);
      assert From(s, 2) == w2 + w3;
    } else if k == 2 {
      assert Below(s, 2) == w0 + w1;
    } else {
      ConcatShapes(w0, w1, w2, w3);
      assert Below(s, 3) == w0 + w1 + w2;
    }
  }

  /** The groupings of four concatenated lists that BelowFrom needs. */
  lemma ConcatShapes(a: seq<Patient>, b: seq<Patient>, c: seq<Patient>, d: seq<Patient>)
    ensures a + b + c + d == [] + a + (b + c + d)
    ensures a + b + c + d == a + b + (c + d)
    ensures a + b + c + d == (a + b + c) + d + []
  {
  }

  /** One more bucket below. */
  lemma BelowNext(s: seq<Patient>, k: nat)
    requires k < 4
    ensures |Below(s, k + 1)| == |Below(s, k)| + |WithRank(s, k)|
  {
  }

  lemma BelowGrows(s: seq<Patient>, j: nat, k: nat)
    requires j <= k
    ensures |Below(s, j)| <= |Below(s, k)|
  {
  }

  /** Inserting a patient after every lower-ranked and before every other patient. */
  lemma InsertAfter(x: Patient, a: seq<Patient>, b: seq<Patient>)
    requires forall p :: p in a ==> Rank(p.priority) < Rank(x.priority)
    requires forall p :: p in b ==> Rank(p.priority) >= Rank(x.priority)
    ensures InsertBy(x, a + b, RankLe) == a + [x] + b
  {
    if b != [] {
      assert b[0] in b;
    }
    assert forall k :: 0 <= k < |a| ==> a[k] in a;
    InsertBySplit(x, a, b, RankLe);
  }

  /** Bucket `k` of a list gains its head when the head has rank `k`; no other bucket changes. */
  lemma BucketsOfCons(s: seq<Patient>)
    requires s != []
    ensures var k := Rank(s[0].priority);
            && Below(s, k) == Below(s[1..], k)
            && WithRank(s, k) == [s[0]] + WithRank(s[1..], k)
            && From(s, k + 1) == From(s[1..], k + 1)
  {
    var k := Rank(s[0].priority);
    assert forall j :: j != k ==> WithRank(s, j) == WithRank(s[1..], j);
  }

  /**
   * The stable sort by rank is the concatenation of the four rank buckets,
   * each in the original order.
   */
  lemma {:induction false} SortByRankIsBuckets(s: seq<Patient>)
    ensures SortBy(s, RankLe) == Below(s, 4)
  {
    if s != [] {
      var x, t := s[0], s[1..];
      var k := Rank(x.priority);
      SortByRankIsBuckets(t);
      InsertIntoBuckets(s);
    }
  }

  /** Inserting the head of a list into the buckets of its tail gives the buckets of the list. */
  lemma InsertIntoBuckets(s: seq<Patient>)
    requires s != []
    ensures InsertBy(s[0], Below(s[1..], 4), RankLe) == Below(s, 4)
  {
    var x, t := s[0], s[1..];
    var k := Rank(x.priority);
    var a, b, c := Below(t, k), WithRank(t, k), From(t, k + 1);
    calc {
      InsertBy(x, Below(t, 4), RankLe);
      { BelowFrom(t, k); assert a + b + c == a + (b + c); }
      InsertBy(x, a + (b + c), RankLe);
      { BelowRanks(t, k); FromRanks(t, k + 1); WithRankMembers(t, k); InsertAfter(x, a, b + c); }
      a + [x] + (b + c);
      a + ([x] + b) + c;
      { BucketsOfCons(s); }
      Below(s, k) + WithRank(s, k) + From(s, k + 1);
      { BelowFrom(s, k); }
      Below(s, 4);
    }
  }

  lemma {:induction false} WithRankAppend(a: seq<Patient>, b: seq<Patient>, k: nat)
    ensures WithRank(a + b, k) == WithRank(a, k) + WithRank(b, k)
  {
    if a != [] {
      WithRankAppend(a[1..], b, k);
      assert (a + b)[1..] == a[1..] + b;
    } else {
      assert a + b == b;
    }
  }

  lemma BucketAppend(a: seq<Patient>, b: seq<Patient>, dept: string, k: nat)
    ensures Bucket(a + b, dept, k) == Bucket(a, dept, k) + Bucket(b, dept, k)
  {
    WaitingInAppend(a, b, dept);
    WithRankAppend(WaitingIn(a, dept), WaitingIn(b, dept), k);
  }

  /** A department's bucket splits around any one of the patients. */
  lemma BucketSplitAt(s: seq<Patient>, i: nat)
    requires i < |s| && s[i].status == Waiting
    ensures var p := s[i];
            Bucket(s, p.department, Rank(p.priority))
            == Bucket(s[..i], p.department, Rank(p.priority)) + [p]
               + Bucket(s[i + 1..], p.department, Rank(p.priority))
  {
    var p, d, k := s[i], s[i].department, Rank(s[i].priority);
    assert s == s[..i] + ([p] + s[i + 1..]);
    BucketAppend(s[..i], [p] + s[i + 1..], d, k);
    BucketAppend([p], s[i + 1..], d, k);
    assert [p][1..] == [];
    assert WaitingIn([p], d) == [p] + WaitingIn([], d);
    assert WithRank([p], k) == [p] + WithRank([], k);
  }

  /** Looking an id up past a prefix that does not hold it. */
  lemma {:induction false} IndexOfIdAppend(a: seq<Patient>, b: seq<Patient>, id: string)
    requires forall p :: p in a ==> p.id != id
    ensures IndexOfId(b, id) >= 0 ==> IndexOfId(a + b, id) == |a| + IndexOfId(b, id)
  {
    if a == [] {
      assert a + b == b;
    } else {
      assert (a + b)[0] == a[0] && a[0] in a;
      assert (a + b)[1..] == a[1..] + b;
      assert forall p :: p in a[1..] ==> p in a;
      IndexOfIdAppend(a[1..], b, id);
    }
  }

  /**
   * With distinct ids, the index of a waiting patient in the ranked queue is
   * the number of patients in the higher-priority buckets plus the number of
   * patients of its own bucket that come before it in the array.
   */
  lemma RankedIndex(s: seq<Patient>, i: nat)
    requires DistinctIds(s) && i < |s| && s[i].status == Waiting
    ensures var p := s[i];
            IndexOfId(RankedQueue(s, p.department), p.id)
            == |Below(WaitingIn(s, p.department), Rank(p.priority))|
               + |Bucket(s[..i], p.department, Rank(p.priority))|
  {
    var p, d, k := s[i], s[i].department, Rank(s[i].priority);
    var w := WaitingIn(s, d);
    var ahead := Below(w, k) + Bucket(s[..i], d, k);
    var behind := [p] + Bucket(s[i + 1..], d, k) + From(w, k + 1);
    RankedQueueAround(s, i);
    AheadOtherIds(s, i);
    IndexOfIdAppend(ahead, behind, p.id);
  }

  /** The ranked queue around a waiting patient: those ahead of it, the patient, those behind. */
  lemma RankedQueueAround(s: seq<Patient>, i: nat)
    requires i < |s| && s[i].status == Waiting
    ensures var p, d, k := s[i], s[i].department, Rank(s[i].priority);
            var w := WaitingIn(s, d);
            RankedQueue(s, d)
            == (Below(w, k) + Bucket(s[..i], d, k)) + ([p] + Bucket(s[i + 1..], d, k) + From(w, k + 1))
  {
    var p, d, k := s[i], s[i].department, Rank(s[i].priority);
    var w := WaitingIn(s, d);
    var a, c := Below(w, k), From(w, k + 1);
    var pre, post := Bucket(s[..i], d, k), Bucket(s[i + 1..], d, k);
    assert RankedQueue(s, d) == a + WithRank(w, k) + c by {
      SortByRankIsBuckets(w);
      BelowFrom(w, k);
    }
    assert WithRank(w, k) == pre + [p] + post by {
      BucketSplitAt(s, i);
    }
    Regroup(a, pre, [p], post, c);
  }

  lemma Regroup<T>(a: seq<T>, b: seq<T>, c: seq<T>, d: seq<T>, e: seq<T>)
    ensures a + (b + c + d) + e == (a + b) + (c + d + e)
  {
  }

  /** No patient ahead of a waiting patient in the ranked queue shares its id. */
  lemma AheadOtherIds(s: seq<Patient>, i: nat)
    requires DistinctIds(s) && i < |s| && s[i].status == Waiting
    ensures var p, d, k := s[i], s[i].department, Rank(s[i].priority);
            forall q :: q in Below(WaitingIn(s, d), k) + Bucket(s[..i], d, k) ==> q.id != p.id
  {
    var p, d, k := s[i], s[i].department, Rank(s[i].priority);
    var w := WaitingIn(s, d);
    BelowRanks(w, k);
    WithRankMembers(WaitingIn(s[..i], d), k);
    forall q | q in Below(w, k) + Bucket(s[..i], d, k) ensures q.id != p.id {
      if q in Below(w, k) {
        assert q in s && q != p;
        var m :| 0 <= m < |s| && s[m] == q;
        assert m != i;
      } else {
        assert q in s[..i];
        var m :| 0 <= m < i && s[..i][m] == q;
        assert s[m] == q;
      }
    }
  }

  /**
   * getQueuePosition of the i-th patient, when waiting: one plus the number
   * of waiting patients of its department with a strictly higher priority,
   * plus the number of waiting patients of its department and priority that
   * come before it in the array.
   */
  lemma QueuePositionCounts(s: seq<Patient>, i: nat)
    requires DistinctIds(s) && i < |s| && s[i].status == Waiting
    ensures QueuePosition(s, s[i]).Some?
    ensures QueuePosition(s, s[i]).value
            == 1 + |Below(WaitingIn(s, s[i].department), Rank(s[i].priority))|
                 + |Bucket(s[..i], s[i].department, Rank(s[i].priority))|
  {
    RankedIndex(s, i);
  }

  /** A waiting patient's position lies between 1 and the size of the department's queue. */
  lemma QueuePositionBounds(patients: seq<Patient>, p: Patient)
    requires p in patients && p.status == Waiting
    ensures QueuePosition(patients, p).Some?
    ensures 1 <= QueuePosition(patients, p).value <= |WaitingIn(patients, p.department)|
  {
    var q := RankedQueue(patients, p.department);
    assert p in multiset(WaitingIn(patients, p.department));
    assert p in multiset(q);
    var i :| 0 <= i < |q| && q[i] == p;
    assert IndexOfId(q, p.id) >= 0;
  }

  /**
   * In one department, a waiting patient of strictly higher priority always
   * has a strictly smaller position.
   */
  lemma QueuePositionByPriority(s: seq<Patient>, i: nat, j: nat)
    requires DistinctIds(s) && i < |s| && j < |s|
    requires s[i].status == Waiting && s[j].status == Waiting
    requires s[i].department == s[j].department
    requires Rank(s[i].priority) < Rank(s[j].priority)
    ensures QueuePosition(s, s[i]).value < QueuePosition(s, s[j]).value
  {
    var d, ka, kb := s[i].department, Rank(s[i].priority), Rank(s[j].priority);
    var w := WaitingIn(s, d);
    PositionWithinBucket(s, i);
    QueuePositionCounts(s, j);
    BelowGrows(w, ka + 1, kb);
  }

  /** A waiting patient's position is at most the number of waiting patients of its department ranked up to its own rank. */
  lemma PositionWithinBucket(s: seq<Patient>, i: nat)
    requires DistinctIds(s) && i < |s| && s[i].status == Waiting
    ensures QueuePosition(s, s[i]).Some?
    ensures QueuePosition(s, s[i]).value <= |Below(WaitingIn(s, s[i].department), Rank(s[i].priority) + 1)|
  {
    var d, k := s[i].department, Rank(s[i].priority);
    var w := WaitingIn(s, d);
    QueuePositionCounts(s, i);
    BucketSplitAt(s, i);
    assert Bucket(s, d, k) == WithRank(w, k);
    BelowNext(w, k);
  }

  /**
   * In one department, waiting patients of equal priority keep their array
   * order (the sort is stable).
   */
  lemma QueuePositionStable(s: seq<Patient>, i: nat, j: nat)
    requires DistinctIds(s) && i < j < |s|
    requires s[i].status == Waiting && s[j].status == Waiting
    requires s[i].department == s[j].department
    requires s[i].priority == s[j].priority
    ensures QueuePosition(s, s[i]).value < QueuePosition(s, s[j]).value
  {
    var d, k := s[i].department, Rank(s[i].priority);
    QueuePositionCounts(s, i);
    QueuePositionCounts(s, j);
    var sj := s[..j];
    assert sj[i] == s[i];
    BucketSplitAt(sj, i);
    assert sj[..i] == s[..i];
  }

  /** With distinct ids, two different waiting patients never share a position. */
  lemma QueuePositionsDistinct(patients: seq<Patient>, a: Patient, b: Patient)
    requires DistinctIds(patients)
    requires a in patients && b in patients && a != b
    requires a.status == Waiting && b.status == Waiting && a.department == b.department
    ensures QueuePosition(patients, a) != QueuePosition(patients, b)
  {
    QueuePositionBounds(patients, a);
    QueuePositionBounds(patients, b);
    var i :| 0 <= i < |patients| && patients[i] == a;
    var j :| 0 <= j < |patients| && patients[j] == b;
    assert a.id != b.id;
  }

  // ---------------------------------------------------------------------------
  // Estimated wait (getEstimatedTime)
  // ---------------------------------------------------------------------------

  /** The priority multiplier of the live queue, in tenths (1.5, 1, 0.7, 0.3). */
  function MultiplierTenths(p: Priority): nat {
    match p
    case Low => 15
    case Medium => 10
    case High => 7
    case Emergency => 3
  }

  /**
   * average x multiplier, scaled by position / 2 when the position is
   * non-zero, rounded, and never below one minute. Computed in twentieths.
   */
  function ScaledWait(average: int, priority: Priority, position: nat): (r: int)
    ensures r >= 1
    ensures var w := if position == 0 then 2 * (average * MultiplierTenths(priority))
                     else average * MultiplierTenths(priority) * position;
            && (r > 1 ==> 40 * r <= 2 * w + 20 < 40 * r + 40)
            && (r == 1 <==> 2 * w + 20 < 80)
  {
    var tenths := average * MultiplierTenths(priority);
    var twentieths := if position == 0 then 2 * tenths else tenths * position;
    Max(1, RoundHalfUp(twentieths, 20))
  }

  /**
   * getEstimatedTime: null unless the patient is waiting and the department
   * is known; otherwise at least one minute.
   */
  function EstimatedTime(patients: seq<Patient>, departments: seq<Department>, p: Patient): (r: Option<int>)
    ensures r.Some? <==> p.status == Waiting && exists j :: 0 <= j < |departments| && departments[j].name == p.department
    ensures r.Some? ==> r.value >= 1
  {
    if p.status != Waiting then None
    else match FindDepartment(departments, p.department)
      case None => None
      case Some(d) => Some(ScaledWait(d.averageWaitTime, p.priority, QueuePosition(patients, p).value))
  }

  /** Any product of a non-positive and a non-negative factor is non-positive. */
  lemma MulNonPositive(c: int, x: int)
    requires c <= 0 && x >= 0
    ensures c * x <= 0
  {
    MulMonotone(x, c, 0);
  }

  /** For one department and priority, a later position never gets a shorter estimate. */
  lemma ScaledWaitMonotoneInPosition(average: int, priority: Priority, m: nat, n: nat)
    requires 1 <= m <= n
    ensures ScaledWait(average, priority, m) <= ScaledWait(average, priority, n)
  {
    var tenths := average * MultiplierTenths(priority);
    if average >= 0 {
      MulMonotone(average, 0, MultiplierTenths(priority));
      MulMonotone(tenths, m, n);
      assert tenths * m <= tenths * n;
      RoundHalfUpMonotone(tenths * m, tenths * n, 20);
    } else {
      MulNonPositive(average, MultiplierTenths(priority));
      MulNonPositive(tenths, m);
      MulNonPositive(tenths, n);
      RoundHalfUpNonPositive(tenths * m, 20);
      RoundHalfUpNonPositive(tenths * n, 20);
    }
  }

  /** For one department and position, a higher priority never gets a longer estimate. */
  lemma ScaledWaitMonotoneInPriority(average: int, a: Priority, b: Priority, n: nat)
    requires Rank(a) <= Rank(b)
    ensures ScaledWait(average, a, n) <= ScaledWait(average, b, n)
  {
    var ma, mb := MultiplierTenths(a), MultiplierTenths(b);
    var ta, tb := average * ma, average * mb;
    var k := if n == 0 then 2 else n;
    assert ta * k == (if n == 0 then 2 * ta else ta * n);
    assert tb * k == (if n == 0 then 2 * tb else tb * n);
    if average >= 0 {
      MulMonotone(average, ma, mb);
      MulMonotone(k, ta, tb);
      assert ta * k <= tb * k;
      RoundHalfUpMonotone(ta * k, tb * k, 20);
    } else {
      MulNonPositive(average, ma);
      MulNonPositive(average, mb);
      MulNonPositive(ta, k);
      MulNonPositive(tb, k);
      RoundHalfUpNonPositive(ta * k, 20);
      RoundHalfUpNonPositive(tb * k, 20);
    }
  }

  /**
   * Within one department, among waiting patients of the same priority, the
   * one further back in the queue never has the shorter estimate.
   */
  lemma EstimatedTimeFollowsPosition(patients: seq<Patient>, departments: seq<Department>, a: Patient, b: Patient)
    requires a in patients && b in patients
    requires a.status == Waiting && b.status == Waiting
    requires a.department == b.department && a.priority == b.priority
    requires EstimatedTime(patients, departments, a).Some?
    requires QueuePosition(patients, a).value <= QueuePosition(patients, b).value
    ensures EstimatedTime(patients, departments, a).value <= EstimatedTime(patients, departments, b).value
  {
    QueuePositionBounds(patients, a);
    var d := FindDepartment(departments, a.department).value;
    ScaledWaitMonotoneInPosition(d.averageWaitTime, a.priority,
      QueuePosition(patients, a).value, QueuePosition(patients, b).value);
  }

  // ---------------------------------------------------------------------------
  // The waiting list (waitingPatients)
  // ---------------------------------------------------------------------------

  /** patients.filter(p => p.status === 'waiting') */
  function AllWaiting(patients: seq<Patient>): (r: seq<Patient>)
    ensures |r| <= |patients|
    ensures forall p :: p in r <==> p in patients && p.status == Waiting
  {
    if patients == [] then []
    else
      var rest := AllWaiting(patients[1..]);
      assert forall p :: p in patients <==> p == patients[0] || p in patients[1..];
      if patients[0].status == Waiting then [patients[0]] + rest else rest
  }

  /** The comparator of the waiting list: priority rank, then estimated wait. */
  function UrgencyLe(a: Patient, b: Patient): bool {
    Rank(a.priority) < Rank(b.priority)
    || (Rank(a.priority) == Rank(b.priority) && a.estimatedWaitTime <= b.estimatedWaitTime)
  }

  lemma UrgencyIsPreorder(s: seq<Patient>)
    ensures TotalPreorderOn(s, UrgencyLe)
  {
  }

  /**
   * waitingPatients: exactly the waiting patients (as a multiset), ordered by
   * priority rank and, within a rank, by estimated wait.
   */
  function WaitingPatients(patients: seq<Patient>): (r: seq<Patient>)
    ensures multiset(r) == multiset(AllWaiting(patients))
    ensures forall p :: p in r <==> p in patients && p.status == Waiting
    ensures forall i, j :: 0 <= i < j < |r| ==> Rank(r[i].priority) <= Rank(r[j].priority)
    ensures forall i, j :: 0 <= i < j < |r| && Rank(r[i].priority) == Rank(r[j].priority)
              ==> r[i].estimatedWaitTime <= r[j].estimatedWaitTime
  {
    var w := AllWaiting(patients);
    UrgencyIsPreorder(w);
    SortBySorted(w, UrgencyLe);
    var r := SortBy(w, UrgencyLe);
    SameMembers(r, w);
    UrgencySortedFields(r);
    r
  }

  lemma SameMembers(a: seq<Patient>, b: seq<Patient>)
    requires multiset(a) == multiset(b)
    ensures forall p :: p in a <==> p in b
  {
    assert forall p :: p in a <==> p in multiset(a);
    assert forall p :: p in b <==> p in multiset(b);
  }

  /** A list sorted by urgency is ordered by rank and, within a rank, by estimated wait. */
  lemma UrgencySortedFields(r: seq<Patient>)
    requires SortedBy(r, UrgencyLe)
    ensures forall i, j :: 0 <= i < j < |r| ==> Rank(r[i].priority) <= Rank(r[j].priority)
    ensures forall i, j :: 0 <= i < j < |r| && Rank(r[i].priority) == Rank(r[j].priority)
              ==> r[i].estimatedWaitTime <= r[j].estimatedWaitTime
  {
    forall i, j | 0 <= i < j < |r| ensures UrgencyLe(r[i], r[j]) {
    }
  }

  // ---------------------------------------------------------------------------
  // The "Find My Position" search (handleSearch)
  // ---------------------------------------------------------------------------

  datatype SearchResult = NoSearch | Found(patient: Patient) | SearchError(error: string)

  const EmptyIdMessage := "Please enter a patient ID"
  const NotFoundMessage := "Patient not found"

  /**
   * The search result for the typed id: an error for a blank entry (one that
   * trims to the empty string, Common.Trim), else the first patient whose id
   * is exactly the entry (untrimmed), else an error.
   */
  function SearchFor(patients: seq<Patient>, input: string): (r: SearchResult)
    ensures !r.NoSearch?
    ensures AllSpace(input) ==> r == SearchError(EmptyIdMessage)
    ensures !AllSpace(input) ==> (r.Found? <==> exists k :: 0 <= k < |patients| && patients[k].id == input)
    ensures !AllSpace(input) && !r.Found? ==> r == SearchError(NotFoundMessage)
    ensures r.Found? ==> exists k :: 0 <= k < |patients| && patients[k] == r.patient && r.patient.id == input
                                     && forall j :: 0 <= j < k ==> patients[j].id != input
  {
    if AllSpace(input) then SearchError(EmptyIdMessage)
    else match FindPatientIndex(patients, input)
      case Some(i) => Found(patients[i])
      case None => SearchError(NotFoundMessage)
  }

  /** Finding a waiting patient turns notifications on, one in progress turns them off; otherwise they stay. */
  function NotificationsAfter(result: SearchResult, notifications: bool): (r: bool)
    ensures result.Found? && result.patient.status == Waiting ==> r
    ensures result.Found? && result.patient.status == InProgress ==> !r
    ensures !(result.Found? && result.patient.status in {Waiting, InProgress}) ==> r == notifications
  {
    if result.Found? && result.patient.status == Waiting then true
    else if result.Found? && result.patient.status == InProgress then false
    else notifications
  }

  /** The component state that handleSearch reads and writes. */
  class QueueView {
    var patients: seq<Patient>
    var departments: seq<Department>
    var patientId: string
    var notifications: bool
    var searchResult: SearchResult

    constructor (patients0: seq<Patient>, departments0: seq<Department>)
      ensures patients == patients0 && departments == departments0
      ensures patientId == "" && !notifications && searchResult == NoSearch
    {
      patients := patients0;
      departments := departments0;
      patientId := "";
      notifications := false;
      searchResult := NoSearch;
    }

    /** The patient-id input field. */
    method EnterPatientId(id: string)
      modifies this
      ensures patientId == id
      ensures patients == old(patients) && departments == old(departments)
      ensures notifications == old(notifications) && searchResult == old(searchResult)
    {
      patientId := id;
    }

    /** handleSearch */
    method HandleSearch()
      modifies this
      ensures searchResult == SearchFor(old(patients), old(patientId))
      ensures notifications == NotificationsAfter(searchResult, old(notifications))
      ensures patients == old(patients) && departments == old(departments) && patientId == old(patientId)
    {
      var result := SearchFor(patients, patientId);
      searchResult := result;
      notifications := NotificationsAfter(result, notifications);
    }
  }
}
