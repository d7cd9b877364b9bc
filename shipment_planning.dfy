/**
 * The shipment planning page (ShipmentPlanningPage.tsx): a draft shipment whose item list
 * holds one `(product_id, quantity)` entry per product, edited by add, remove and quantity
 * handlers, and checked before it is submitted.
 */
module ShipmentPlanning {
  import opened Wrappers
  import opened Seqs
  import opened Catalog

  /** A `ShipmentItem`. */
  datatype Item = Item(productId: int, quantity: int)

  /** No product appears twice. */
  predicate UniqueIds(items: seq<Item>) {
    forall i, j :: 0 <= i < j < |items| ==> items[i].productId != items[j].productId
  }

  /** The list the handlers maintain: unique products, each with at least one unit. */
  predicate ValidItems(items: seq<Item>) {
    UniqueIds(items) && forall i :: 0 <= i < |items| ==> items[i].quantity >= 1
  }

  /** `shipment.items.find(item => item.product_id === productId)` finds something. */
  predicate HasProduct(items: seq<Item>, productId: int) {
    exists i :: 0 <= i < |items| && items[i].productId == productId
  }

  /** `items.map(item => item.product_id === productId ? {...item, quantity: f(item)} : item)`. */
  function Increment(items: seq<Item>, productId: int): (r: seq<Item>)
    ensures |r| == |items|
    ensures forall i :: 0 <= i < |items| ==>
      r[i] == if items[i].productId == productId then Item(productId, items[i].quantity + 1) else items[i]
  {
    seq(|items|, i requires 0 <= i < |items| =>
      if items[i].productId == productId then items[i].(quantity := items[i].quantity + 1) else items[i])
  }

  function SetQuantity(items: seq<Item>, productId: int, quantity: int): (r: seq<Item>)
    ensures |r| == |items|
    ensures forall i :: 0 <= i < |items| ==>
      r[i] == if items[i].productId == productId then Item(productId, quantity) else items[i]
  {
    seq(|items|, i requires 0 <= i < |items| =>
      if items[i].productId == productId then items[i].(quantity := quantity) else items[i])
  }

  /** `handleAddProduct`: one more unit of a listed product, or a new entry of one unit at the end. */
  function AddProduct(items: seq<Item>, productId: int): seq<Item>
  {
    if HasProduct(items, productId) then Increment(items, productId)
    else items + [Item(productId, 1)]
  }

  /** `handleRemoveProduct`: `items.filter(item => item.product_id !== productId)`. */
  function RemoveProduct(items: seq<Item>, productId: int): seq<Item>
  {
    Filter(items, (it: Item) => it.productId != productId)
  }

  /** `handleQuantityChange`: a quantity of 0 or less removes the entry. */
  function ChangeQuantity(items: seq<Item>, productId: int, quantity: int): seq<Item>
  {
    if quantity <= 0 then RemoveProduct(items, productId)
    else SetQuantity(items, productId, quantity)
  }

  function QuantityOf(it: Item): int { it.quantity }

  /** `getTotalItems`: the sum of the quantities. */
  function TotalItems(items: seq<Item>): int
  {
    SumBy(items, QuantityOf)
  }

  /** With unique ids, the entry of a listed product sits at exactly one index. */
  lemma IndexOf(items: seq<Item>, productId: int) returns (k: nat)
    requires UniqueIds(items) && HasProduct(items, productId)
    ensures k < |items| && items[k].productId == productId
    ensures forall i :: 0 <= i < |items| && i != k ==> items[i].productId != productId
  {
    k :| 0 <= k < |items| && items[k].productId == productId;
  }

  /**
   * Adding a product not yet listed appends one unit of it; adding a listed product adds
   * one unit to its entry alone and keeps length and order. Either way the total grows by one.
   */
  lemma AddProductSpec(items: seq<Item>, productId: int)
    requires UniqueIds(items)
    ensures !HasProduct(items, productId) ==> AddProduct(items, productId) == items + [Item(productId, 1)]
    ensures HasProduct(items, productId) ==>
      |AddProduct(items, productId)| == |items| &&
      forall i :: 0 <= i < |items| ==>
        AddProduct(items, productId)[i] ==
          if items[i].productId == productId then items[i].(quantity := items[i].quantity + 1) else items[i]
    ensures TotalItems(AddProduct(items, productId)) == TotalItems(items) + 1
  {
    if HasProduct(items, productId) {
      var k := IndexOf(items, productId);
      assert AddProduct(items, productId) == items[k := Item(productId, items[k].quantity + 1)];
      SumByUpdate(items, k, Item(productId, items[k].quantity + 1), QuantityOf);
    } else {
      SumByAppend(items, [Item(productId, 1)], QuantityOf);
    }
  }

  /** Removal keeps exactly the other products' entries, in their order. */
  lemma RemoveProductMembers(items: seq<Item>, productId: int)
    ensures forall it :: it in RemoveProduct(items, productId) <==> it in items && it.productId != productId
    ensures !HasProduct(items, productId) ==> RemoveProduct(items, productId) == items
  {
    var keep := (it: Item) => it.productId != productId;
    forall it ensures it in Filter(items, keep) <==> it in items && keep(it) {
      FilterMembers(items, keep, it);
    }
    if !HasProduct(items, productId) {
      FilterAll(items, keep);
    }
  }

  /** Removing a product keeps the list valid. */
  lemma {:induction false} RemoveKeepsValid(items: seq<Item>, productId: int)
    requires ValidItems(items)
    ensures ValidItems(RemoveProduct(items, productId))
  {
    var keep := (it: Item) => it.productId != productId;
    if |items| > 0 {
      RemoveKeepsValid(items[1..], productId);
      var rest := RemoveProduct(items[1..], productId);
      forall k | 0 <= k < |rest| ensures rest[k].productId != items[0].productId {
        assert rest[k] in multiset(items[1..]);
        var j :| 0 <= j < |items[1..]| && items[1..][j] == rest[k];
        assert items[j + 1] == rest[k];
      }
      assert RemoveProduct(items, productId) == (if keep(items[0]) then [items[0]] else []) + rest;
    }
  }

  /** Adding a product keeps the list valid. */
  lemma AddKeepsValid(items: seq<Item>, productId: int)
    requires ValidItems(items)
    ensures ValidItems(AddProduct(items, productId))
  {
  }

  /** A quantity change keeps the list valid, and one of 0 or less is exactly a removal. */
  lemma ChangeQuantitySpec(items: seq<Item>, productId: int, quantity: int)
    requires ValidItems(items)
    ensures ValidItems(ChangeQuantity(items, productId, quantity))
    ensures quantity <= 0 ==> ChangeQuantity(items, productId, quantity) == RemoveProduct(items, productId)
    ensures quantity > 0 && HasProduct(items, productId) ==>
      exists k :: 0 <= k < |items| && items[k].productId == productId &&
        ChangeQuantity(items, productId, quantity) == items[k := Item(productId, quantity)]
    ensures quantity > 0 && !HasProduct(items, productId) ==> ChangeQuantity(items, productId, quantity) == items
  {
    if quantity <= 0 {
      RemoveKeepsValid(items, productId);
    } else if HasProduct(items, productId) {
      var k := IndexOf(items, productId);
      assert ChangeQuantity(items, productId, quantity) == items[k := Item(productId, quantity)];
    } else {
      assert ChangeQuantity(items, productId, quantity) == items;
    }
  }

  /** Every entry has at least one unit, so the total is at least the number of entries. */
  lemma {:induction false} TotalAtLeastEntries(items: seq<Item>)
    requires forall i :: 0 <= i < |items| ==> items[i].quantity >= 1
    ensures TotalItems(items) >= |items|
  {
    if |items| > 0 {
      TotalAtLeastEntries(items[1..]);
    }
  }

  datatype SubmitError =
    | NoItems        // "Adicione pelo menos um produto ao envio."
    | NoDestination  // "Selecione o centro de distribuição de destino."

  /** The checks of `handleSubmit`, in order: the items first, then the destination. */
  function ValidateSubmit(items: seq<Item>, destination: string): (r: Option<SubmitError>)
    ensures r == Some(NoItems) <==> |items| == 0
    ensures r == Some(NoDestination) <==> |items| > 0 && destination == ""
    ensures r.None? <==> |items| > 0 && destination != ""
  {
    if |items| == 0 then Some(NoItems)
    else if destination == "" then Some(NoDestination)
    else None
  }

  /** The page's state: the fetched products, their low-stock list and the draft shipment. */
  class ShipmentPlanningPage {
    var products: seq<Product>
    var lowStockProducts: seq<Product>
    var status: string
    var items: seq<Item>
    var destinationWarehouse: string
    var notes: string

    predicate Valid()
      reads this
    {
      ValidItems(items) && (|products| > 0 ==> lowStockProducts == LowStockProducts(products))
    }

    /** An empty draft shipment. */
    constructor()
      ensures products == [] && lowStockProducts == []
      ensures status == "draft" && items == [] && destinationWarehouse == "" && notes == ""
      ensures Valid()
    {
      products := [];
      lowStockProducts := [];
      status := "draft";
      items := [];
      destinationWarehouse := "";
      notes := "";
    }

    /** `setProducts(data)` and the low-stock effect, which runs only when there are products. */
    method SetProducts(data: seq<Product>)
      requires Valid()
      modifies this
      ensures products == data
      ensures |data| > 0 ==> lowStockProducts == LowStockProducts(data)
      ensures |data| == 0 ==> lowStockProducts == old(lowStockProducts)
      ensures items == old(items) && status == old(status)
      ensures destinationWarehouse == old(destinationWarehouse) && notes == old(notes)
      ensures Valid()
    {
      products := data;
      if |products| > 0 {
        lowStockProducts := LowStockProducts(products);
      }
    }

    method HandleAddProduct(productId: int)
      requires Valid()
      modifies this
      ensures items == AddProduct(old(items), productId)
      ensures TotalItems(items) == TotalItems(old(items)) + 1
      ensures products == old(products) && lowStockProducts == old(lowStockProducts)
      ensures status == old(status) && destinationWarehouse == old(destinationWarehouse) && notes == old(notes)
      ensures Valid()
    {
      AddProductSpec(items, productId);
      AddKeepsValid(items, productId);
      items := AddProduct(items, productId);
    }

    method HandleRemoveProduct(productId: int)
      requires Valid()
      modifies this
      ensures items == RemoveProduct(old(items), productId)
      ensures !HasProduct(items, productId)
      ensures products == old(products) && lowStockProducts == old(lowStockProducts)
      ensures status == old(status) && destinationWarehouse == old(destinationWarehouse) && notes == old(notes)
      ensures Valid()
    {
      RemoveKeepsValid(items, productId);
      RemoveProductMembers(items, productId);
      items := RemoveProduct(items, productId);
    }

    method HandleQuantityChange(productId: int, quantity: int)
      requires Valid()
      modifies this
      ensures items == ChangeQuantity(old(items), productId, quantity)
      ensures products == old(products) && lowStockProducts == old(lowStockProducts)
      ensures status == old(status) && destinationWarehouse == old(destinationWarehouse) && notes == old(notes)
      ensures Valid()
    {
      ChangeQuantitySpec(items, productId, quantity);
      items := ChangeQuantity(items, productId, quantity);
    }

    /**
     * `handleSubmit`: rejects an empty list, then a missing destination; on success the
     * draft is reset and the products are kept. The `fetchProducts()` that follows a
     * success completes later, as a separate `SetProducts` call. The simulated backend
     * response is not part of this model.
     */
    method HandleSubmit() returns (error: Option<SubmitError>)
      requires Valid()
      modifies this
      ensures error == ValidateSubmit(old(items), old(destinationWarehouse))
      ensures error.Some? ==> (items == old(items) && status == old(status) &&
        destinationWarehouse == old(destinationWarehouse) && notes == old(notes))
      ensures error.None? ==> status == "draft" && items == [] && destinationWarehouse == "" && notes == ""
      ensures products == old(products) && lowStockProducts == old(lowStockProducts)
      ensures Valid()
    {
      if |items| == 0 {
        return Some(NoItems);
      }
      if destinationWarehouse == "" {
        return Some(NoDestination);
      }
      status := "draft";
      items := [];
      destinationWarehouse := "";
      notes := "";
      return None;
    }

    /** `getTotalItems()`. */
    function GetTotalItems(): int
      reads this
    {
      TotalItems(items)
    }
  }
}
