/**
 * The manual stock adjustment page (StockAdjustmentPage.tsx): a form whose quantity is
 * kept at 1 or more, whose fields are checked in order before submission, whose type
 * decides the sign of the quantity sent to `POST /stock/adjust`, and which previews the
 * available stock after the adjustment.
 */
module AdjustmentForm {
  import opened Wrappers
  import opened Catalog
  import SA = StockAdjust

  /** `['saida_manual', 'perda', 'dano'].includes(type)`. */
  predicate OutgoingName(adjustmentType: string) {
    adjustmentType == "saida_manual" || adjustmentType == "perda" || adjustmentType == "dano"
  }

  function Abs(n: int): int { if n < 0 then -n else n }

  /**
   * `Math.max(1, parseInt(value) || 1)`. `parseInt` is `None` when it yields `NaN`;
   * `NaN` and 0 are falsy and become 1.
   */
  function ClampQuantity(parsed: Option<int>): (q: int)
    ensures q >= 1
    ensures parsed.Some? && parsed.value >= 1 ==> q == parsed.value
    ensures parsed.None? || parsed.value < 1 ==> q == 1
  {
    var n := if parsed.Some? && parsed.value != 0 then parsed.value else 1;
    if n >= 1 then n else 1
  }

  /** JavaScript's `trim` removes these characters (the common whitespace and line terminators). */
  predicate IsWhitespace(c: char) {
    c == ' ' || c == '\t' || c == '\n' || c == '\r' || c == '\U{000B}' || c == '\U{000C}' ||
    c == '\U{00A0}' || c == '\U{2028}' || c == '\U{2029}' || c == '\U{FEFF}'
  }

  /** `!reason.trim()`: nothing but whitespace. */
  predicate Blank(s: string) {
    forall i :: 0 <= i < |s| ==> IsWhitespace(s[i])
  }

  datatype FormError =
    | NoProduct     // "Selecione um produto para ajustar o estoque."
    | BadQuantity   // "A quantidade deve ser maior que zero."
    | NoReason      // "Informe o motivo do ajuste de estoque."

  /** The checks of `handleSubmit`, in order. */
  function Validate(productId: int, quantity: int, reason: string): (r: Option<FormError>)
    ensures r == Some(NoProduct) <==> productId == 0
    ensures r == Some(BadQuantity) <==> productId != 0 && quantity <= 0
    ensures r == Some(NoReason) <==> productId != 0 && quantity > 0 && Blank(reason)
    ensures r.None? <==> productId != 0 && quantity > 0 && !Blank(reason)
  {
    if productId == 0 then Some(NoProduct)
    else if quantity <= 0 then Some(BadQuantity)
    else if Blank(reason) then Some(NoReason)
    else None
  }

  /** The quantity sent: `-|q|` for the outgoing types, `|q|` otherwise. */
  function SubmittedQuantity(adjustmentType: string, quantity: int): (q: int)
    ensures OutgoingName(adjustmentType) ==> q == -Abs(quantity)
    ensures !OutgoingName(adjustmentType) ==> q == Abs(quantity)
  {
    if OutgoingName(adjustmentType) then -Abs(quantity) else Abs(quantity)
  }

  /** The request body: the form with the signed quantity. */
  function Request(productId: int, adjustmentType: string, quantity: int, reason: string): SA.Request {
    map[
      "product_id" := SA.JInt(productId),
      "adjustment_type" := SA.JString(adjustmentType),
      "quantity" := SA.JInt(SubmittedQuantity(adjustmentType, quantity)),
      "reason" := SA.JString(reason)]
  }

  /**
   * The page and the endpoint agree on the sign: the endpoint's own normalisation leaves
   * the submitted quantity as it is, and the page's outgoing types are the endpoint's.
   */
  lemma SignAgreesWithBackend(t: SA.AdjustmentType, quantity: int)
    requires quantity != 0
    ensures OutgoingName(SA.TypeName(t)) <==> SA.Outgoing(t)
    ensures SA.SignedQuantity(t, SubmittedQuantity(SA.TypeName(t), quantity)) == SubmittedQuantity(SA.TypeName(t), quantity)
    ensures SA.SignedQuantity(t, quantity) == SubmittedQuantity(SA.TypeName(t), quantity)
  {
  }

  /**
   * The "after adjustment" preview: `Math.max(0, available - q)` for outgoing types,
   * `available + q` otherwise, and `N/A` (`None`) with no selected product.
   */
  function Preview(products: seq<Product>, productId: int, adjustmentType: string, quantity: int): Option<int>
  {
    match FindById(products, productId)
    case None => None
    case Some(p) =>
      if OutgoingName(adjustmentType) then Some(SA.Max(0, p.stock.available - quantity))
      else Some(p.stock.available + quantity)
  }

  /**
   * A form that passes validation, for one of the user's products and one of the four
   * types, is accepted by the endpoint with the page's signed quantity, and the stock it
   * then records as available is the preview, when the page's product list shows the
   * latest record (whose available stock, like every record the endpoint writes, is not negative).
   */
  lemma SubmissionMatchesPreview(products: seq<Product>, owned: set<int>, latest: map<int, StockLevel>,
                                 productId: int, t: SA.AdjustmentType, quantity: int, reason: string)
    requires Validate(productId, quantity, reason).None?
    requires productId in owned
    requires FindById(products, productId).Some?
    requires FindById(products, productId).value.stock.available == SA.Baseline(LatestOf(latest, productId)).available
    requires FindById(products, productId).value.stock.available >= 0
    ensures var r := SA.AdjustStock(Request(productId, SA.TypeName(t), quantity, reason), owned, latest);
      r.Accepted? &&
      r.adjustment.quantity == SubmittedQuantity(SA.TypeName(t), quantity) &&
      Preview(products, productId, SA.TypeName(t), quantity) == Some(r.adjustment.newStock.available)
  {
    var data := Request(productId, SA.TypeName(t), quantity, reason);
    assert SA.FirstMissing(data, SA.RequiredFields).None? by {
      assert forall i :: 0 <= i < |SA.RequiredFields| ==> SA.RequiredFields[i] in data;
    }
    SA.ParseTypeName(t, data["adjustment_type"]);
    SignAgreesWithBackend(t, quantity);
  }

  /** The word of the success message as written: it tests the unsigned form quantity. */
  function SuccessVerbAsWritten(quantity: int): string {
    if quantity > 0 then "aumentado" else "reduzido"
  }

  /** The form quantity is never below 1, so the message always says the stock was increased. */
  lemma SuccessVerbAsWrittenIgnoresType(adjustmentType: string, quantity: int)
    requires quantity >= 1 && OutgoingName(adjustmentType)
    ensures SuccessVerbAsWritten(quantity) == "aumentado"
    ensures SubmittedQuantity(adjustmentType, quantity) < 0
  {
  }

  /** The word the message evidently means: from the signed quantity that was sent. */
  function SuccessVerb(adjustmentType: string, quantity: int): string {
    if SubmittedQuantity(adjustmentType, quantity) > 0 then "aumentado" else "reduzido"
  }

  /** The corrected message says "aumentado" exactly for entries, and "reduzido" for the outgoing types. */
  lemma SuccessVerbFollowsType(adjustmentType: string, quantity: int)
    requires quantity >= 1
    ensures SuccessVerb(adjustmentType, quantity) == "reduzido" <==> OutgoingName(adjustmentType)
    ensures SuccessVerb(adjustmentType, quantity) == "aumentado" <==> SubmittedQuantity(adjustmentType, quantity) > 0
  {
  }

  /**
   * The product selected once `fetchProducts` completes, as written: the first fetched
   * product whenever the fetch returns any, whatever was selected before.
   */
  function Reselect(selected: int, fetched: seq<Product>): (id: int)
    ensures |fetched| > 0 ==> id == fetched[0].id
    ensures |fetched| == 0 ==> id == selected
  {
    if |fetched| > 0 then fetched[0].id else selected
  }

  /**
   * The reset after a successful submission means to keep the selected product, but the
   * refresh it starts selects the first product again: with products 1 and 2 listed and
   * product 2 selected, the form ends up on product 1.
   */
  lemma RefreshDropsSelection()
    ensures var stock := Stock(10, 10, 0, None);
      var first := Product(1, "SKU-1", "MLB1", None, "A", "2024-01-01", stock);
      var second := Product(2, "SKU-2", "MLB2", None, "B", "2024-01-01", stock);
      FindById([first, second], 2).Some? && Reselect(2, [first, second]) == 1
  {
  }

  /**
   * The evident intent: the first product is chosen only when the selection is not among
   * the fetched products (as on the first load, when nothing is selected yet).
   */
  function KeepSelection(selected: int, fetched: seq<Product>): int {
    if FindById(fetched, selected).Some? then selected else Reselect(selected, fetched)
  }

  /**
   * The corrected refresh keeps a selection that is still listed, always leaves a listed
   * product selected when there is one, and on the first load (no product with id 0)
   * behaves exactly as written.
   */
  lemma KeepSelectionSpec(selected: int, fetched: seq<Product>)
    ensures FindById(fetched, selected).Some? ==> KeepSelection(selected, fetched) == selected
    ensures |fetched| > 0 ==> FindById(fetched, KeepSelection(selected, fetched)).Some?
    ensures FindById(fetched, 0).None? ==> KeepSelection(0, fetched) == Reselect(0, fetched)
  {
    if |fetched| > 0 && FindById(fetched, selected).None? {
      assert FindById(fetched, fetched[0].id).Some?;
    }
  }

  /** What a submission leads to. */
  datatype SubmitOutcome =
    | Invalid(error: FormError)
    | Sent(request: SA.Request, response: SA.AdjustResult)

  /** The form state `formData`. */
  class AdjustmentFormState {
    var productId: int
    var adjustmentType: string
    var quantity: int
    var reason: string
    /** The success message's verb after an accepted submission. */
    var successVerb: Option<string>

    /** The quantity is never below 1. */
    predicate Valid()
      reads this
    {
      quantity >= 1
    }

    constructor()
      ensures productId == 0 && adjustmentType == "entrada_manual" && quantity == 1 && reason == ""
      ensures successVerb.None?
      ensures Valid()
    {
      productId := 0;
      adjustmentType := "entrada_manual";
      quantity := 1;
      reason := "";
      successVerb := None;
    }

    /** After a fetch, the first product is selected if there is one. */
    method ProductsLoaded(products: seq<Product>)
      requires Valid()
      modifies this
      ensures productId == Reselect(old(productId), products)
      ensures adjustmentType == old(adjustmentType) && quantity == old(quantity) && reason == old(reason)
      ensures successVerb == old(successVerb)
      ensures Valid()
    {
      if |products| > 0 {
        productId := products[0].id;
      }
    }

    /** A click on a product of the list. */
    method SelectProduct(id: int)
      requires Valid()
      modifies this
      ensures productId == id
      ensures adjustmentType == old(adjustmentType) && quantity == old(quantity) && reason == old(reason)
      ensures successVerb == old(successVerb)
      ensures Valid()
    {
      productId := id;
    }

    /** `handleInputChange` on the quantity input, given what `parseInt` made of it. */
    method QuantityInput(parsed: Option<int>)
      requires Valid()
      modifies this
      ensures quantity == ClampQuantity(parsed)
      ensures productId == old(productId) && adjustmentType == old(adjustmentType) && reason == old(reason)
      ensures successVerb == old(successVerb)
      ensures Valid()
    {
      quantity := ClampQuantity(parsed);
    }

    /** `handleInputChange` on the type select. */
    method TypeInput(value: string)
      requires Valid()
      modifies this
      ensures adjustmentType == value
      ensures productId == old(productId) && quantity == old(quantity) && reason == old(reason)
      ensures successVerb == old(successVerb)
      ensures Valid()
    {
      adjustmentType := value;
    }

    /** `handleInputChange` on the reason text. */
    method ReasonInput(value: string)
      requires Valid()
      modifies this
      ensures reason == value
      ensures productId == old(productId) && adjustmentType == old(adjustmentType) && quantity == old(quantity)
      ensures successVerb == old(successVerb)
      ensures Valid()
    {
      reason := value;
    }

    /**
     * `handleSubmit` against the endpoint, given the user's products, their latest stock
     * records and the list the refresh after an accepted adjustment fetches. Any previous
     * success message is cleared first. An accepted adjustment sets the message's verb as
     * written, resets the form keeping the product, and then the refresh selects its first
     * product, if it fetched any.
     */
    method Submit(owned: set<int>, latest: map<int, StockLevel>, refreshed: seq<Product>) returns (outcome: SubmitOutcome)
      requires Valid()
      modifies this
      ensures var e := Validate(old(productId), old(quantity), old(reason));
        e.Some? ==> outcome == Invalid(e.value)
      ensures Validate(old(productId), old(quantity), old(reason)).None? ==>
        outcome.Sent? && outcome.request == Request(old(productId), old(adjustmentType), old(quantity), old(reason)) &&
        outcome.response == SA.AdjustStock(outcome.request, owned, latest)
      ensures outcome.Sent? && outcome.response.Accepted? ==>
        productId == Reselect(old(productId), refreshed) &&
        adjustmentType == "entrada_manual" && quantity == 1 && reason == "" &&
        successVerb == Some(SuccessVerbAsWritten(old(quantity)))
      ensures !(outcome.Sent? && outcome.response.Accepted?) ==>
        productId == old(productId) && adjustmentType == old(adjustmentType) &&
        quantity == old(quantity) && reason == old(reason) && successVerb.None?
      ensures Valid()
    {
      successVerb := None;
      var e := Validate(productId, quantity, reason);
      if e.Some? {
        return Invalid(e.value);
      }
      var request := Request(productId, adjustmentType, quantity, reason);
      var response := SA.AdjustStock(request, owned, latest);
      outcome := Sent(request, response);
      if response.Accepted? {
        successVerb := Some(SuccessVerbAsWritten(quantity));
        adjustmentType := "entrada_manual";
        quantity := 1;
        reason := "";
        ProductsLoaded(refreshed);
      }
    }
  }
}
