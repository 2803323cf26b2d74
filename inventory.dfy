/**
 * Inventory management: a list of stock items with a form that either adds
 * a new item or, while an item is selected for editing, overwrites that
 * item's fields; items can be deleted by id.
 */
module Inventory {
  import opened Common

  datatype InventoryItem = InventoryItem(id: string, itemName: string, quantity: int, category: string)

  /** The fields of the add/update form. */
  datatype InventoryForm = InventoryForm(itemName: string, quantity: int, category: string)

  const EmptyForm := InventoryForm("", 0, "")

  /** The items loaded when the page opens. */
  function MockInventory(): (r: seq<InventoryItem>)
    ensures |r| == 3 && r[0].id == "1" && r[1].id == "2" && r[2].id == "3"
  {
    [InventoryItem("1", "Syringes", 100, "supplies"),
     InventoryItem("2", "Stethoscope", 50, "equipment"),
     InventoryItem("3", "Painkillers", 200, "medication")]
  }

  /**
   * A form is submitted only with a name, a category and a non-zero
   * quantity; a negative quantity passes.
   */
  predicate Submittable(form: InventoryForm) {
    form.itemName != "" && form.quantity != 0 && form.category != ""
  }

  /** The item made from the form, `{...item, ...form}`: the id stays, the rest comes from the form. */
  function Overwrite(item: InventoryItem, form: InventoryForm): (r: InventoryItem)
    ensures r.id == item.id
    ensures r.itemName == form.itemName && r.quantity == form.quantity && r.category == form.category
  {
    item.(itemName := form.itemName, quantity := form.quantity, category := form.category)
  }

  /** items.map(item => item.id === id ? {...item, ...form} : item) */
  function ApplyForm(items: seq<InventoryItem>, id: string, form: InventoryForm): (r: seq<InventoryItem>)
    ensures |r| == |items|
    ensures forall k :: 0 <= k < |r| ==> r[k].id == items[k].id
    ensures forall k :: 0 <= k < |r| && items[k].id != id ==> r[k] == items[k]
    ensures forall k :: 0 <= k < |r| && items[k].id == id ==>
              r[k].itemName == form.itemName && r[k].quantity == form.quantity && r[k].category == form.category
  {
    seq(|items|, k requires 0 <= k < |items| => if items[k].id == id then Overwrite(items[k], form) else items[k])
  }

  /** Applying the same form twice is the same as applying it once. */
  lemma ApplyFormIdempotent(items: seq<InventoryItem>, id: string, form: InventoryForm)
    ensures ApplyForm(ApplyForm(items, id, form), id, form) == ApplyForm(items, id, form)
  {
  }

  /** Submitting an edit without changing the form leaves the list as it was. */
  lemma UnchangedEditKeepsItems(items: seq<InventoryItem>, item: InventoryItem)
    requires forall k :: 0 <= k < |items| && items[k].id == item.id ==> items[k] == item
    ensures ApplyForm(items, item.id, InventoryForm(item.itemName, item.quantity, item.category)) == items
  {
  }

  /** items.filter(item => item.id !== id) */
  function Without(items: seq<InventoryItem>, id: string): (r: seq<InventoryItem>)
    ensures |r| <= |items|
    ensures forall k :: 0 <= k < |r| ==> r[k].id != id
  {
    if items == [] then []
    else
      var rest := Without(items[1..], id);
      if items[0].id != id then [items[0]] + rest else rest
  }

  /** Exactly the items with another id survive a delete. */
  lemma {:induction false} WithoutMembers(items: seq<InventoryItem>, id: string)
    ensures forall x :: x in Without(items, id) <==> x in items && x.id != id
  {
    if items != [] {
      WithoutMembers(items[1..], id);
      assert forall x :: x in items <==> x == items[0] || x in items[1..];
    }
  }

  /** Deleting an id no item has changes nothing. */
  lemma {:induction false} WithoutAbsent(items: seq<InventoryItem>, id: string)
    requires forall k :: 0 <= k < |items| ==> items[k].id != id
    ensures Without(items, id) == items
  {
    if items != [] {
      WithoutAbsent(items[1..], id);
    }
  }

  /** Deleting twice is the same as deleting once. */
  lemma DeleteIdempotent(items: seq<InventoryItem>, id: string)
    ensures Without(Without(items, id), id) == Without(items, id)
  {
    WithoutAbsent(Without(items, id), id);
  }

  lemma {:induction false} WithoutAppend(a: seq<InventoryItem>, b: seq<InventoryItem>, id: string)
    ensures Without(a + b, id) == Without(a, id) + Without(b, id)
  {
    if a == [] {
      assert a + b == b;
    } else {
      var ab := a + b;
      assert ab[0] == a[0] && ab[1..] == a[1..] + b;
      WithoutAppend(a[1..], b, id);
    }
  }

  /** Deleting an item just added under a fresh id gives back the earlier list. */
  lemma DeleteUndoesAdd(items: seq<InventoryItem>, added: InventoryItem)
    requires forall k :: 0 <= k < |items| ==> items[k].id != added.id
    ensures Without(items + [added], added.id) == items
  {
    WithoutAppend(items, [added], added.id);
    WithoutAbsent(items, added.id);
    assert [added][1..] == [];
  }

  /** Deleting an item after editing it is the same as deleting it right away. */
  lemma {:induction false} DeleteAfterUpdate(items: seq<InventoryItem>, id: string, form: InventoryForm)
    ensures Without(ApplyForm(items, id, form), id) == Without(items, id)
  {
    if items != [] {
      var updated := ApplyForm(items, id, form);
      assert updated[1..] == ApplyForm(items[1..], id, form);
      DeleteAfterUpdate(items[1..], id, form);
    }
  }

  /** The inventory page's state. */
  class InventoryPage {
    var items: seq<InventoryItem>
    var form: InventoryForm
    var selected: Option<InventoryItem>

    /** The page as it opens: the mock items, an empty form, nothing selected. */
    constructor ()
      ensures items == MockInventory() && form == EmptyForm && selected.None?
    {
      items := MockInventory();
      form := EmptyForm;
      selected := None;
    }

    /** handleAddInventory: `id` stands for the random id the page generates. */
    method AddItem(id: string)
      modifies this
      ensures !Submittable(old(form)) ==> items == old(items) && form == old(form)
      ensures Submittable(old(form)) ==>
                items == old(items) + [InventoryItem(id, old(form).itemName, old(form).quantity, old(form).category)]
                && form == EmptyForm
      ensures selected == old(selected)
    {
      if !Submittable(form) {
        return;
      }
      var item := InventoryItem(id, form.itemName, form.quantity, form.category);
      items := items + [item];
      form := EmptyForm;
    }

    /** handleUpdateInventory: the selected item takes the form's fields, then the form is cleared. */
    method UpdateItem()
      modifies this
      ensures old(selected).None? || !Submittable(old(form)) ==>
                items == old(items) && form == old(form) && selected == old(selected)
      ensures old(selected).Some? && Submittable(old(form)) ==>
                items == ApplyForm(old(items), old(selected).value.id, old(form))
                && form == EmptyForm && selected.None?
    {
      if selected.None? || !Submittable(form) {
        return;
      }
      items := ApplyForm(items, selected.value.id, form);
      form := EmptyForm;
      selected := None;
    }

    /** handleDeleteInventory */
    method DeleteItem(id: string)
      modifies this
      ensures items == Without(old(items), id)
      ensures form == old(form) && selected == old(selected)
    {
      items := Without(items, id);
    }

    /** The edit button of a row: the item is selected and its fields fill the form. */
    method EditItem(item: InventoryItem)
      modifies this
      ensures selected == Some(item)
      ensures form == InventoryForm(item.itemName, item.quantity, item.category)
      ensures items == old(items)
    {
      selected := Some(item);
      form := InventoryForm(item.itemName, item.quantity, item.category);
    }

    /** The form's cancel button. */
    method CancelEdit()
      modifies this
      ensures form == EmptyForm && selected.None? && items == old(items)
    {
      form := EmptyForm;
      selected := None;
    }
  }
}
