/**
 * `POST /stock/adjust` (src/routes.py `adjust_stock`): validates a manual stock adjustment,
 * normalises the sign of its quantity by adjustment type and computes the product's new
 * stock record from its latest one.
 */
module StockAdjust {
  import opened Wrappers
  import opened Catalog

  /** A value of the JSON body, as far as the checks tell values apart. */
  datatype JsonValue = JInt(i: int) | JBool(b: bool) | JString(s: string) | JOther

  /** The JSON body: field name to value. A missing or `null` body is the empty map. */
  type Request = map<string, JsonValue>

  datatype AdjustmentType = EntradaManual | SaidaManual | Perda | Dano

  function TypeName(t: AdjustmentType): string {
    match t
    case EntradaManual => "entrada_manual"
    case SaidaManual => "saida_manual"
    case Perda => "perda"
    case Dano => "dano"
  }

  /** The accepted type names; anything else is rejected. */
  function ParseType(v: JsonValue): Option<AdjustmentType> {
    if v == JString("entrada_manual") then Some(EntradaManual)
    else if v == JString("saida_manual") then Some(SaidaManual)
    else if v == JString("perda") then Some(Perda)
    else if v == JString("dano") then Some(Dano)
    else None
  }

  /** Each type parses back from its own name, and only the four names parse. */
  lemma ParseTypeName(t: AdjustmentType, v: JsonValue)
    ensures ParseType(JString(TypeName(t))) == Some(t)
    ensures ParseType(v).Some? <==> v.JString? && v.s in {"entrada_manual", "saida_manual", "perda", "dano"}
  {
  }

  /** The types that take stock out. */
  predicate Outgoing(t: AdjustmentType) {
    t == SaidaManual || t == Perda || t == Dano
  }

  /**
   * The number a quantity stands for under `isinstance(quantity, (int, float))`:
   * integers, and booleans, which Python counts as the integers 1 and 0.
   */
  function AsNumber(v: JsonValue): Option<int> {
    match v
    case JInt(i) => Some(i)
    case JBool(b) => Some(if b then 1 else 0)
    case _ => None
  }

  datatype AdjustError =
    | NoData                       // "Dados não fornecidos"
    | MissingField(field: string)  // "Campo obrigatório não fornecido: <field>"
    | ProductNotFound              // the product does not exist or is not the user's
    | InvalidType                  // "Tipo de ajuste inválido"
    | InvalidQuantity              // "Quantidade inválida"

  /** The HTTP status of each rejection. */
  function HttpStatus(e: AdjustError): (code: int)
    ensures code == 404 <==> e == ProductNotFound
    ensures code == 400 <==> e != ProductNotFound
  {
    if e == ProductNotFound then 404 else 400
  }

  const RequiredFields: seq<string> := ["product_id", "adjustment_type", "quantity", "reason"]

  /** The first of `fields` that `data` lacks. */
  function FirstMissing(data: Request, fields: seq<string>): (r: Option<string>)
    ensures r.None? <==> forall i :: 0 <= i < |fields| ==> fields[i] in data
    ensures r.Some? ==> exists i :: (0 <= i < |fields| && fields[i] == r.value && r.value !in data &&
      forall j :: 0 <= j < i ==> fields[j] in data)
  {
    if |fields| == 0 then None
    else if fields[0] !in data then Some(fields[0])
    else
      var r := FirstMissing(data, fields[1..]);
      if r.Some? then
        var i :| 0 <= i < |fields[1..]| && fields[1..][i] == r.value && r.value !in data &&
          forall j :: 0 <= j < i ==> fields[1..][j] in data;
        assert fields[i + 1] == r.value;
        r
      else r
  }

  /**
   * The sign rule: outgoing types make a positive quantity negative, an entry makes a
   * negative quantity positive.
   */
  function SignedQuantity(t: AdjustmentType, q: int): int {
    if Outgoing(t) && q > 0 then -q
    else if t == EntradaManual && q < 0 then -q
    else q
  }

  /** After the sign rule an entry adds and every other type removes, by the same amount. */
  lemma SignedQuantitySign(t: AdjustmentType, q: int)
    requires q != 0
    ensures Outgoing(t) ==> SignedQuantity(t, q) < 0
    ensures t == EntradaManual ==> SignedQuantity(t, q) > 0
    ensures SignedQuantity(t, q) == q || SignedQuantity(t, q) == -q
  {
  }

  /** The stock figures of a record. */
  datatype StockFigures = StockFigures(total: int, available: int, notAvailable: int)

  function FiguresOf(s: StockLevel): StockFigures {
    StockFigures(s.total, s.available, s.notAvailable)
  }

  /** What the computation starts from: the latest record, or a record of zeros. */
  function Baseline(last: Option<StockLevel>): StockFigures {
    match last
    case Some(s) => FiguresOf(s)
    case None => StockFigures(0, 0, 0)
  }

  function Max(a: int, b: int): int { if a >= b then a else b }

  /**
   * The new record: available is clamped at zero, total never falls below available,
   * and not available is the difference.
   */
  function ApplyQuantity(base: StockFigures, q: int): (r: StockFigures)
    ensures 0 <= r.available <= r.total
    ensures r.notAvailable == r.total - r.available
  {
    var available := Max(0, base.available + q);
    var total := Max(available, base.total + q);
    StockFigures(total, available, total - available)
  }

  /** Without clamping, the adjustment moves available and total by exactly `q`. */
  lemma ApplyQuantityExact(base: StockFigures, q: int)
    requires 0 <= base.available + q
    requires base.available <= base.total
    ensures ApplyQuantity(base, q).available == base.available + q
    ensures ApplyQuantity(base, q).total == base.total + q
    ensures ApplyQuantity(base, q).notAvailable == base.total - base.available
  {
  }

  /** Taking out more than is available empties the available stock. */
  lemma ApplyQuantityClamps(base: StockFigures, q: int)
    requires base.available + q < 0
    ensures ApplyQuantity(base, q).available == 0
    ensures ApplyQuantity(base, q).total == Max(0, base.total + q)
  {
  }

  /** An entry of `n` followed by an exit of `n` restores a consistent record. */
  lemma EntryThenExit(base: StockFigures, n: int)
    requires ConsistentStock(base.total, base.available, base.notAvailable)
    requires n > 0
    ensures ApplyQuantity(ApplyQuantity(base, n), -n) == base
  {
    ApplyQuantityExact(base, n);
    ApplyQuantityExact(ApplyQuantity(base, n), -n);
  }

  /** An accepted adjustment: what is recorded and returned. */
  datatype Adjustment = Adjustment(
    productId: int,
    kind: AdjustmentType,
    quantity: int,          // after the sign rule; recorded and applied
    reason: JsonValue,
    baselineCreated: bool,  // a zero record was inserted first because there was none
    newStock: StockFigures)

  datatype AdjustResult = Accepted(adjustment: Adjustment) | Rejected(error: AdjustError)

  /**
   * `adjust_stock` once the user is authenticated. `owned` holds the ids of the user's
   * products and `latest` each product's newest stock record.
   */
  function AdjustStock(data: Request, owned: set<int>, latest: map<int, StockLevel>): AdjustResult
  {
    if |data| == 0 then Rejected(NoData)
    else
      var missing := FirstMissing(data, RequiredFields);
      if missing.Some? then Rejected(MissingField(missing.value))
      else
      assert RequiredFields[0] in data && RequiredFields[1] in data && RequiredFields[2] in data && RequiredFields[3] in data;
      if !(data["product_id"].JInt? && data["product_id"].i in owned) then Rejected(ProductNotFound)
      else
        var id := data["product_id"].i;
        var kind := ParseType(data["adjustment_type"]);
        if kind.None? then Rejected(InvalidType)
        else
          var number := AsNumber(data["quantity"]);
          if number.None? || number.value == 0 then Rejected(InvalidQuantity)
          else
            var q := SignedQuantity(kind.value, number.value);
            var last := LatestOf(latest, id);
            Accepted(Adjustment(id, kind.value, q, data["reason"], last.None?, ApplyQuantity(Baseline(last), q)))
  }

  /** The checks run in a fixed order and the first failing one decides the answer. */
  lemma AdjustStockValidationOrder(data: Request, owned: set<int>, latest: map<int, StockLevel>)
    ensures AdjustStock(data, owned, latest) == Rejected(NoData) <==> |data| == 0
    ensures forall f :: AdjustStock(data, owned, latest) == Rejected(MissingField(f)) <==>
      |data| > 0 && FirstMissing(data, RequiredFields) == Some(f)
    ensures AdjustStock(data, owned, latest).Rejected? && AdjustStock(data, owned, latest).error != NoData
      ==> |data| > 0
    ensures AdjustStock(data, owned, latest) == Rejected(ProductNotFound) <==>
      |data| > 0 && (forall f :: f in RequiredFields ==> f in data) &&
      !(data["product_id"].JInt? && data["product_id"].i in owned)
    ensures AdjustStock(data, owned, latest) == Rejected(InvalidType) <==>
      |data| > 0 && (forall f :: f in RequiredFields ==> f in data) &&
      data["product_id"].JInt? && data["product_id"].i in owned &&
      ParseType(data["adjustment_type"]).None?
    ensures AdjustStock(data, owned, latest) == Rejected(InvalidQuantity) <==>
      |data| > 0 && (forall f :: f in RequiredFields ==> f in data) &&
      data["product_id"].JInt? && data["product_id"].i in owned &&
      ParseType(data["adjustment_type"]).Some? &&
      (AsNumber(data["quantity"]).None? || AsNumber(data["quantity"]).value == 0)
    ensures AdjustStock(data, owned, latest).Accepted? <==>
      |data| > 0 && (forall f :: f in RequiredFields ==> f in data) &&
      data["product_id"].JInt? && data["product_id"].i in owned &&
      ParseType(data["adjustment_type"]).Some? &&
      AsNumber(data["quantity"]).Some? && AsNumber(data["quantity"]).value != 0
  {
    if |data| > 0 && FirstMissing(data, RequiredFields).None? {
      assert forall f :: f in RequiredFields ==> f in data by {
        forall f | f in RequiredFields ensures f in data {
          var i :| 0 <= i < |RequiredFields| && RequiredFields[i] == f;
        }
      }
    }
    if |data| > 0 && FirstMissing(data, RequiredFields).Some? {
      var f := FirstMissing(data, RequiredFields).value;
      assert f !in data;
    }
  }

  /**
   * Every accepted adjustment stores a consistent record: `0 <= available <= total`
   * and `not_available == total - available`; the quantity carries the type's sign.
   */
  lemma AcceptedIsConsistent(data: Request, owned: set<int>, latest: map<int, StockLevel>)
    requires AdjustStock(data, owned, latest).Accepted?
    ensures var a := AdjustStock(data, owned, latest).adjustment;
      ConsistentStock(a.newStock.total, a.newStock.available, a.newStock.notAvailable) &&
      a.productId in owned &&
      (Outgoing(a.kind) ==> a.quantity < 0) && (a.kind == EntradaManual ==> a.quantity > 0)
  {
    AdjustStockValidationOrder(data, owned, latest);
    assert "quantity" in RequiredFields && "adjustment_type" in RequiredFields;
    var number := AsNumber(data["quantity"]);
    SignedQuantitySign(ParseType(data["adjustment_type"]).value, number.value);
  }

  /** A product with no stock record starts from zeros, and an entry of `n` then gives `n` available. */
  lemma FirstAdjustmentFromZero(data: Request, owned: set<int>, latest: map<int, StockLevel>)
    requires AdjustStock(data, owned, latest).Accepted?
    requires data["product_id"].i !in latest
    ensures var a := AdjustStock(data, owned, latest).adjustment;
      a.baselineCreated &&
      a.newStock == ApplyQuantity(StockFigures(0, 0, 0), a.quantity) &&
      (a.kind == EntradaManual ==> a.newStock == StockFigures(a.quantity, a.quantity, 0))
  {
    AdjustStockValidationOrder(data, owned, latest);
    assert "quantity" in RequiredFields && "adjustment_type" in RequiredFields;
    var number := AsNumber(data["quantity"]);
    SignedQuantitySign(ParseType(data["adjustment_type"]).value, number.value);
  }
}
