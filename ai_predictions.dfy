/**
 * The AI predictions page: the bed and inventory forecasts filtered by
 * department (or category), confidence and time window, their CSV export,
 * and the per-department and per-category averages of the load chart.
 */
module AIPredictions {
  import opened Common

  datatype BedPrediction = BedPrediction(
    hour: int,
    availableBeds: int,
    occupiedBeds: int,
    predictedNeed: int,
    confidenceLevel: int,
    department: Option<string>)

  datatype InventoryPrediction = InventoryPrediction(
    itemName: string,
    currentQuantity: int,
    predictedUsage: int,
    predictedRestockNeed: int,
    confidenceLevel: int,
    category: string)

  // ---------------------------------------------------------------------------
  // Filters (filteredBedPredictions, filteredInventoryPredictions)
  // ---------------------------------------------------------------------------

  /** 'all' keeps forecasts with or without a department; any other filter needs that department. */
  predicate BedMatches(p: BedPrediction, departmentFilter: string, threshold: int) {
    (departmentFilter == "all" || p.department == Some(departmentFilter)) && p.confidenceLevel >= threshold
  }

  function BedFilter(predictions: seq<BedPrediction>, departmentFilter: string, threshold: int)
    : (r: seq<BedPrediction>)
    ensures |r| <= |predictions|
    ensures forall k :: 0 <= k < |r| ==> BedMatches(r[k], departmentFilter, threshold)
  {
    if predictions == [] then []
    else
      var rest := BedFilter(predictions[1..], departmentFilter, threshold);
      if BedMatches(predictions[0], departmentFilter, threshold) then [predictions[0]] + rest else rest
  }

  /** Exactly the matching forecasts pass the filter. */
  lemma {:induction false} BedFilterMembers(predictions: seq<BedPrediction>, departmentFilter: string, threshold: int)
    ensures forall p :: p in BedFilter(predictions, departmentFilter, threshold) <==>
                          p in predictions && BedMatches(p, departmentFilter, threshold)
  {
    if predictions != [] {
      BedFilterMembers(predictions[1..], departmentFilter, threshold);
      assert forall p :: p in predictions <==> p == predictions[0] || p in predictions[1..];
    }
  }

  /** The filter keeps the hourly order: filtering two spans filters each in place. */
  lemma {:induction false} BedFilterAppend(a: seq<BedPrediction>, b: seq<BedPrediction>,
                                           departmentFilter: string, threshold: int)
    ensures BedFilter(a + b, departmentFilter, threshold)
            == BedFilter(a, departmentFilter, threshold) + BedFilter(b, departmentFilter, threshold)
  {
    if a == [] {
      assert a + b == b;
    } else {
      var ab := a + b;
      assert ab[0] == a[0] && ab[1..] == a[1..] + b;
      BedFilterAppend(a[1..], b, departmentFilter, threshold);
    }
  }

  /** The number of rows the time window shows: 24 for '24h', 12 for '12h', 6 otherwise. */
  function RowLimit(dateRange: string): (r: nat)
    ensures dateRange == "24h" ==> r == 24
    ensures dateRange == "12h" ==> r == 12
    ensures dateRange != "24h" && dateRange != "12h" ==> r == 6
  {
    if dateRange == "24h" then 24 else if dateRange == "12h" then 12 else 6
  }

  /** filteredBedPredictions: the first matching forecasts, as many as the window shows. */
  function FilteredBedPredictions(predictions: seq<BedPrediction>, departmentFilter: string,
                                  dateRange: string, threshold: int): (r: seq<BedPrediction>)
    ensures |r| == Min(RowLimit(dateRange), |BedFilter(predictions, departmentFilter, threshold)|)
    ensures r <= BedFilter(predictions, departmentFilter, threshold)
    ensures forall k :: 0 <= k < |r| ==> BedMatches(r[k], departmentFilter, threshold)
  {
    var matching := BedFilter(predictions, departmentFilter, threshold);
    if |matching| <= RowLimit(dateRange) then matching else matching[..RowLimit(dateRange)]
  }

  /** A wider window shows the narrower window's rows first. */
  lemma WiderWindowExtends(predictions: seq<BedPrediction>, departmentFilter: string, threshold: int)
    ensures FilteredBedPredictions(predictions, departmentFilter, "6h", threshold)
            <= FilteredBedPredictions(predictions, departmentFilter, "12h", threshold)
            <= FilteredBedPredictions(predictions, departmentFilter, "24h", threshold)
  {
  }

  /** The inventory filter compares the category with the lower-cased filter; 'all' keeps every category. */
  predicate InventoryMatches(p: InventoryPrediction, departmentFilter: string, threshold: int) {
    (departmentFilter == "all" || p.category == ToLower(departmentFilter)) && p.confidenceLevel >= threshold
  }

  function InventoryFilter(predictions: seq<InventoryPrediction>, departmentFilter: string, threshold: int)
    : (r: seq<InventoryPrediction>)
    ensures |r| <= |predictions|
    ensures forall k :: 0 <= k < |r| ==> InventoryMatches(r[k], departmentFilter, threshold)
  {
    if predictions == [] then []
    else
      var rest := InventoryFilter(predictions[1..], departmentFilter, threshold);
      if InventoryMatches(predictions[0], departmentFilter, threshold) then [predictions[0]] + rest else rest
  }

  lemma {:induction false} InventoryFilterMembers(predictions: seq<InventoryPrediction>, departmentFilter: string,
                                                  threshold: int)
    ensures forall p :: p in InventoryFilter(predictions, departmentFilter, threshold) <==>
                          p in predictions && InventoryMatches(p, departmentFilter, threshold)
  {
    if predictions != [] {
      InventoryFilterMembers(predictions[1..], departmentFilter, threshold);
      assert forall p :: p in predictions <==> p == predictions[0] || p in predictions[1..];
    }
  }

  /**
   * The category filter ignores letter case: a filter and its lower-case
   * form select the same rows, unless lower-casing turns it into 'all'.
   */
  lemma {:induction false} InventoryFilterIgnoresCase(predictions: seq<InventoryPrediction>, departmentFilter: string,
                                                      threshold: int)
    requires ToLower(departmentFilter) != "all"
    ensures InventoryFilter(predictions, departmentFilter, threshold)
            == InventoryFilter(predictions, ToLower(departmentFilter), threshold)
  {
    ToLowerIdempotent(departmentFilter);
    if predictions != [] {
      InventoryFilterIgnoresCase(predictions[1..], departmentFilter, threshold);
    }
  }

  // ---------------------------------------------------------------------------
  // CSV export (exportPredictions)
  // ---------------------------------------------------------------------------

  /** The header lines, written column by column. */
  const BedHeader := "Hour," + "Available Beds," + "Occupied Beds," + "Predicted Need," + "Confidence Level," + "Department"
  const InventoryHeader := "Item Name," + "Current Quantity," + "Predicted Usage," + "Predicted Restock Need,"
                           + "Confidence Level," + "Category"

  /** `p.department || 'All'`: a missing or empty department is written as All. */
  function DepartmentOrAll(department: Option<string>): (r: string)
    ensures department.Some? && department.value != "" ==> r == department.value
    ensures department.None? || department == Some("") ==> r == "All"
  {
    if department.Some? && department.value != "" then department.value else "All"
  }

  /** The CSV line of a bed forecast; no field is quoted. */
  function BedLine(p: BedPrediction): string {
    IntToString(p.hour) + ":00," + IntToString(p.availableBeds) + "," + IntToString(p.occupiedBeds) + ","
    + IntToString(p.predictedNeed) + "," + IntToString(p.confidenceLevel) + "%," + DepartmentOrAll(p.department)
  }

  /** The CSV line of an inventory forecast; no field is quoted. */
  function InventoryLine(p: InventoryPrediction): string {
    p.itemName + "," + IntToString(p.currentQuantity) + "," + IntToString(p.predictedUsage) + ","
    + IntToString(p.predictedRestockNeed) + "," + IntToString(p.confidenceLevel) + "%," + p.category
  }

  function BedLines(rows: seq<BedPrediction>): (r: seq<string>)
    ensures |r| == |rows| && forall k :: 0 <= k < |r| ==> r[k] == BedLine(rows[k])
  {
    seq(|rows|, k requires 0 <= k < |rows| => BedLine(rows[k]))
  }

  function InventoryLines(rows: seq<InventoryPrediction>): (r: seq<string>)
    ensures |r| == |rows| && forall k :: 0 <= k < |r| ==> r[k] == InventoryLine(rows[k])
  {
    seq(|rows|, k requires 0 <= k < |rows| => InventoryLine(rows[k]))
  }

  /** The exported text: the header of the shown kind and one line per shown row, joined by newlines. */
  function ExportCsv(predictionType: string, beds: seq<BedPrediction>, inventory: seq<InventoryPrediction>)
    : (r: string)
  {
    if predictionType == "beds" then Join([BedHeader] + BedLines(beds), '\n')
    else Join([InventoryHeader] + InventoryLines(inventory), '\n')
  }

  /** A number written out holds no line break. */
  lemma IntToStringOneLine(i: int)
    ensures '\n' !in IntToString(i)
  {
  }

  lemma BedLineOneLine(p: BedPrediction)
    requires p.department.Some? ==> '\n' !in p.department.value
    ensures '\n' !in BedLine(p)
  {
    IntToStringOneLine(p.hour);
    IntToStringOneLine(p.availableBeds);
    IntToStringOneLine(p.occupiedBeds);
    IntToStringOneLine(p.predictedNeed);
    IntToStringOneLine(p.confidenceLevel);
  }

  lemma InventoryLineOneLine(p: InventoryPrediction)
    requires '\n' !in p.itemName && '\n' !in p.category
    ensures '\n' !in InventoryLine(p)
  {
    IntToStringOneLine(p.currentQuantity);
    IntToStringOneLine(p.predictedUsage);
    IntToStringOneLine(p.predictedRestockNeed);
    IntToStringOneLine(p.confidenceLevel);
  }

  /**
   * Splitting the exported bed CSV at line breaks gives back the header and
   * one line per row, in order, so the file has exactly one line more than
   * there are rows.
   */
  lemma BedCsvLines(beds: seq<BedPrediction>)
    requires forall k :: 0 <= k < |beds| && beds[k].department.Some? ==> '\n' !in beds[k].department.value
    ensures Split(ExportCsv("beds", beds, []), '\n') == [BedHeader] + BedLines(beds)
    ensures |Split(ExportCsv("beds", beds, []), '\n')| == |beds| + 1
  {
    var body := BedLines(beds);
    forall k | 0 <= k < |body| ensures '\n' !in body[k] {
      BedLineOneLine(beds[k]);
    }
    BedHeaderOneLine();
    CsvLines(BedHeader, body);
  }

  /** The same for the inventory CSV. */
  lemma InventoryCsvLines(inventory: seq<InventoryPrediction>)
    requires forall k :: 0 <= k < |inventory| ==> '\n' !in inventory[k].itemName && '\n' !in inventory[k].category
    ensures Split(ExportCsv("inventory", [], inventory), '\n') == [InventoryHeader] + InventoryLines(inventory)
    ensures |Split(ExportCsv("inventory", [], inventory), '\n')| == |inventory| + 1
  {
    var body := InventoryLines(inventory);
    forall k | 0 <= k < |body| ensures '\n' !in body[k] {
      InventoryLineOneLine(inventory[k]);
    }
    InventoryHeaderOneLine();
    CsvLines(InventoryHeader, body);
  }

  lemma BedHeaderOneLine()
    ensures '\n' !in BedHeader
  {
  }

  lemma InventoryHeaderOneLine()
    ensures '\n' !in InventoryHeader
  {
  }

  lemma CsvLines(header: string, body: seq<string>)
    requires '\n' !in header
    requires forall k :: 0 <= k < |body| ==> '\n' !in body[k]
    ensures Split(Join([header] + body, '\n'), '\n') == [header] + body
  {
    var lines := [header] + body;
    assert forall k :: 0 < k < |lines| ==> lines[k] == body[k - 1];
    SplitJoin(lines, '\n');
  }

  // ---------------------------------------------------------------------------
  // Load chart averages (deptLoadChartData)
  // ---------------------------------------------------------------------------

  /** The arithmetic mean, or 0 for an empty list. */
  function MeanOrZero(xs: seq<int>): (r: real)
    ensures xs == [] ==> r == 0.0
    ensures xs != [] ==> r * (|xs| as real) == Sum(xs) as real
  {
    if xs == [] then 0.0 else (Sum(xs) as real) / (|xs| as real)
  }

  /** Dividing both sides by a positive number keeps their order. */
  lemma ScaleBack(x: real, y: real, n: real)
    requires n > 0.0 && x * n <= y * n
    ensures x <= y
  {
    assert y * n - x * n == (y - x) * n;
  }

  lemma CastProduct(k: int, x: int)
    ensures (k * x) as real == (x as real) * (k as real)
  {
  }

  /** A non-empty list's mean lies between its smallest and largest element. */
  lemma MeanWithin(xs: seq<int>, lo: int, hi: int)
    requires xs != [] && AllWithin(xs, lo, hi)
    ensures lo as real <= MeanOrZero(xs) <= hi as real
  {
    SumWithin(xs, lo, hi);
    var n, m := |xs| as real, MeanOrZero(xs);
    CastProduct(|xs|, lo);
    CastProduct(|xs|, hi);
    ScaleBack(lo as real, m, n);
    ScaleBack(m, hi as real, n);
  }

  /** The occupied beds of the forecasts for one department. */
  function OccupiedIn(rows: seq<BedPrediction>, department: string): (r: seq<int>)
    ensures |r| <= |rows|
  {
    if rows == [] then []
    else
      var rest := OccupiedIn(rows[1..], department);
      if rows[0].department == Some(department) then [rows[0].occupiedBeds] + rest else rest
  }

  /** Every occupancy counted for a department comes from one of its forecasts. */
  lemma {:induction false} OccupiedInFrom(rows: seq<BedPrediction>, department: string, lo: int, hi: int)
    requires forall k :: 0 <= k < |rows| && rows[k].department == Some(department) ==>
               lo <= rows[k].occupiedBeds <= hi
    ensures AllWithin(OccupiedIn(rows, department), lo, hi)
  {
    if rows != [] {
      OccupiedInFrom(rows[1..], department, lo, hi);
    }
  }

  /** Exactly the occupancies of the department's forecasts are averaged. */
  lemma {:induction false} OccupiedInMembers(rows: seq<BedPrediction>, department: string)
    ensures forall v :: v in OccupiedIn(rows, department) <==>
                          exists k :: 0 <= k < |rows| && rows[k].department == Some(department) && rows[k].occupiedBeds == v
  {
    if rows != [] {
      OccupiedInMembers(rows[1..], department);
      assert forall k :: 0 < k < |rows| ==> rows[k] == rows[1..][k - 1];
    }
  }

  /** The department's forecasts are taken one by one, in hourly order. */
  lemma {:induction false} OccupiedInAppend(a: seq<BedPrediction>, b: seq<BedPrediction>, department: string)
    ensures OccupiedIn(a + b, department) == OccupiedIn(a, department) + OccupiedIn(b, department)
  {
    if a == [] {
      assert a + b == b;
    } else {
      var ab := a + b;
      assert ab[0] == a[0] && ab[1..] == a[1..] + b;
      OccupiedInAppend(a[1..], b, department);
    }
  }

  /** The departments of the load chart. */
  const ChartDepartments: seq<string> := ["Emergency", "Surgery", "Pediatrics"]

  /** The bed chart: each department's mean occupancy over the shown forecasts, 0 without any. */
  function DepartmentLoads(rows: seq<BedPrediction>): (r: seq<real>)
    ensures |r| == |ChartDepartments|
    ensures forall k :: 0 <= k < |r| ==> r[k] == MeanOrZero(OccupiedIn(rows, ChartDepartments[k]))
  {
    seq(|ChartDepartments|, k requires 0 <= k < |ChartDepartments| => MeanOrZero(OccupiedIn(rows, ChartDepartments[k])))
  }

  /** Each department's load lies within the occupancy range of its own forecasts. */
  lemma DepartmentLoadWithin(rows: seq<BedPrediction>, k: nat, lo: int, hi: int)
    requires k < |ChartDepartments| && 0 <= lo <= hi
    requires forall j :: 0 <= j < |rows| && rows[j].department == Some(ChartDepartments[k]) ==>
               lo <= rows[j].occupiedBeds <= hi
    ensures 0.0 <= DepartmentLoads(rows)[k] <= hi as real
  {
    var xs := OccupiedIn(rows, ChartDepartments[k]);
    if xs != [] {
      OccupiedInFrom(rows, ChartDepartments[k], lo, hi);
      MeanWithin(xs, lo, hi);
    }
  }

  /** The stock of the inventory forecasts in one category. */
  function QuantityIn(rows: seq<InventoryPrediction>, category: string): (r: seq<int>)
    ensures |r| <= |rows|
  {
    if rows == [] then []
    else
      var rest := QuantityIn(rows[1..], category);
      if rows[0].category == category then [rows[0].currentQuantity] + rest else rest
  }

  /** Exactly the stock of the category's rows is averaged. */
  lemma {:induction false} QuantityInMembers(rows: seq<InventoryPrediction>, category: string)
    ensures forall v :: v in QuantityIn(rows, category) <==>
                          exists k :: 0 <= k < |rows| && rows[k].category == category && rows[k].currentQuantity == v
  {
    if rows != [] {
      QuantityInMembers(rows[1..], category);
      assert forall k :: 0 < k < |rows| ==> rows[k] == rows[1..][k - 1];
    }
  }

  /** The category's rows are taken one by one, in order. */
  lemma {:induction false} QuantityInAppend(a: seq<InventoryPrediction>, b: seq<InventoryPrediction>, category: string)
    ensures QuantityIn(a + b, category) == QuantityIn(a, category) + QuantityIn(b, category)
  {
    if a == [] {
      assert a + b == b;
    } else {
      var ab := a + b;
      assert ab[0] == a[0] && ab[1..] == a[1..] + b;
      QuantityInAppend(a[1..], b, category);
    }
  }

  const ChartCategories: seq<string> := ["medication", "equipment", "supplies"]

  /** The inventory chart: each category's mean current quantity, 0 without any. */
  function CategoryLoads(rows: seq<InventoryPrediction>): (r: seq<real>)
    ensures |r| == |ChartCategories|
    ensures forall k :: 0 <= k < |r| ==> r[k] == MeanOrZero(QuantityIn(rows, ChartCategories[k]))
  {
    seq(|ChartCategories|, k requires 0 <= k < |ChartCategories| => MeanOrZero(QuantityIn(rows, ChartCategories[k])))
  }

  /** A category filter other than 'all' leaves only its own bar possibly non-zero. */
  lemma {:induction false} OtherCategoriesEmpty(predictions: seq<InventoryPrediction>, departmentFilter: string,
                                                threshold: int, category: string)
    requires departmentFilter != "all" && category != ToLower(departmentFilter)
    ensures QuantityIn(InventoryFilter(predictions, departmentFilter, threshold), category) == []
  {
    if predictions != [] {
      OtherCategoriesEmpty(predictions[1..], departmentFilter, threshold, category);
    }
  }
}
