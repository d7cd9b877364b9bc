/**
 * The low-stock alert settings page (AlertSettingsPage.tsx): a global threshold, per-product
 * overrides seeded from the global settings, and the list of products at or below their
 * threshold.
 *
 * The page resolves a product's threshold in two ways. The row highlight uses
 * `getProductThreshold`, which takes any override that is not `undefined`. The low-stock list
 * uses `override || global`, which also falls back to the global threshold for an override of 0
 * or `NaN`. Both rules are modelled, and the lemmas say where they agree.
 */
module AlertSettings {
  import opened Seqs
  import opened Catalog

  /** A threshold as the page can hold it: `undefined`, `NaN` from `parseInt`, or a number. */
  datatype Threshold = Unset | NaN | Limit(n: int)

  /** The `AlertSettings` record. */
  datatype Settings = Settings(enabled: bool, threshold: Threshold, notificationEmail: string, notificationDashboard: bool)

  /** The initial global settings: enabled, threshold 5, no e-mail, dashboard alerts on. */
  const DefaultGlobal := Settings(true, Limit(5), "", true)

  /** JavaScript truthiness of a threshold: a number other than 0. */
  predicate Truthy(t: Threshold) {
    t.Limit? && t.n != 0
  }

  /** `available <= threshold`; a comparison with `undefined` or `NaN` is false. */
  predicate AtOrBelow(available: int, t: Threshold) {
    t.Limit? && available <= t.n
  }

  /** `productSettings[id]?.threshold`. */
  function Override(overrides: map<int, Settings>, id: int): Threshold {
    if id in overrides then overrides[id].threshold else Unset
  }

  /** `getProductThreshold(id)`: the override's threshold unless it is `undefined`. */
  function ResolveThreshold(overrides: map<int, Settings>, global: Settings, id: int): (t: Threshold)
    ensures id in overrides && overrides[id].threshold != Unset ==> t == overrides[id].threshold
    ensures id !in overrides || overrides[id].threshold == Unset ==> t == global.threshold
  {
    if Override(overrides, id) != Unset then Override(overrides, id) else global.threshold
  }

  /** The threshold of the low-stock list: `productSettings[id]?.threshold || globalSettings.threshold`. */
  function ListThreshold(overrides: map<int, Settings>, global: Settings, id: int): (t: Threshold)
    ensures Truthy(Override(overrides, id)) ==> t == Override(overrides, id)
    ensures !Truthy(Override(overrides, id)) ==> t == global.threshold
  {
    if Truthy(Override(overrides, id)) then Override(overrides, id) else global.threshold
  }

  /** The row highlight: `available <= getProductThreshold(id)`. */
  predicate HighlightedLow(overrides: map<int, Settings>, global: Settings, p: Product) {
    AtOrBelow(p.stock.available, ResolveThreshold(overrides, global, p.id))
  }

  /** The test of the low-stock list. */
  predicate ListedLow(overrides: map<int, Settings>, global: Settings, p: Product) {
    AtOrBelow(p.stock.available, ListThreshold(overrides, global, p.id))
  }

  /** The low-stock list the effect computes, in product order. */
  function LowStockList(products: seq<Product>, overrides: map<int, Settings>, global: Settings): seq<Product>
  {
    Filter(products, (p: Product) => ListedLow(overrides, global, p))
  }

  /** The list holds exactly the products at or below their `||`-resolved threshold, in order. */
  lemma LowStockListExact(products: seq<Product>, overrides: map<int, Settings>, global: Settings)
    ensures forall p :: p in LowStockList(products, overrides, global) <==>
      p in products && AtOrBelow(p.stock.available, ListThreshold(overrides, global, p.id))
    ensures |LowStockList(products, overrides, global)| <= |products|
  {
    var low := (p: Product) => ListedLow(overrides, global, p);
    forall p ensures p in Filter(products, low) <==> p in products && low(p) {
      FilterMembers(products, low, p);
    }
  }

  /** An override that is neither 0 nor `NaN` makes the two rules pick the same threshold. */
  lemma RulesAgree(overrides: map<int, Settings>, global: Settings, id: int)
    requires Override(overrides, id) != Limit(0) && Override(overrides, id) != NaN
    ensures ListThreshold(overrides, global, id) == ResolveThreshold(overrides, global, id)
  {
  }

  /**
   * An override of 0 makes them differ: a product with some stock, within the global
   * threshold, is listed as low but not highlighted.
   */
  lemma RulesDisagreeAtZero(overrides: map<int, Settings>, global: Settings, p: Product)
    requires Override(overrides, p.id) == Limit(0)
    requires global.threshold.Limit? && 0 < p.stock.available <= global.threshold.n
    ensures ListedLow(overrides, global, p) && !HighlightedLow(overrides, global, p)
  {
  }

  /** With no override of 0 or `NaN`, the list holds exactly the highlighted products. */
  lemma ListMatchesHighlight(products: seq<Product>, overrides: map<int, Settings>, global: Settings)
    requires forall id :: id in overrides ==> overrides[id].threshold != Limit(0) && overrides[id].threshold != NaN
    ensures LowStockList(products, overrides, global) ==
      Filter(products, (p: Product) => HighlightedLow(overrides, global, p))
  {
    var listed := (p: Product) => ListedLow(overrides, global, p);
    var highlighted := (p: Product) => HighlightedLow(overrides, global, p);
    forall i | 0 <= i < |products| ensures listed(products[i]) == highlighted(products[i]) {
      RulesAgree(overrides, global, products[i].id);
    }
    FilterCongruent(products, listed, highlighted);
  }

  /** The field a settings input changes, with its new value. */
  datatype SettingChange =
    | SetEnabled(enabled: bool)
    | SetThreshold(threshold: Threshold)
    | SetEmail(email: string)
    | SetDashboard(dashboard: bool)

  function ApplyChange(s: Settings, change: SettingChange): Settings {
    match change
    case SetEnabled(b) => s.(enabled := b)
    case SetThreshold(t) => s.(threshold := t)
    case SetEmail(e) => s.(notificationEmail := e)
    case SetDashboard(b) => s.(notificationDashboard := b)
  }

  /** `handleProductSettingChange`: the product's entry, or a copy of the global settings, with one field changed. */
  function ChangeSetting(overrides: map<int, Settings>, global: Settings, id: int, change: SettingChange): map<int, Settings>
  {
    var seed := if id in overrides then overrides[id] else global;
    overrides[id := ApplyChange(seed, change)]
  }

  /** `handleResetProductSettings`: the product's entry is deleted. */
  function ResetSetting(overrides: map<int, Settings>, id: int): map<int, Settings>
  {
    overrides - {id}
  }

  /**
   * A change creates or updates only that product's entry. A new entry starts as the
   * global settings, and the other fields keep their values.
   */
  lemma ChangeSettingLocal(overrides: map<int, Settings>, global: Settings, id: int, change: SettingChange)
    ensures var after := ChangeSetting(overrides, global, id, change);
      after.Keys == overrides.Keys + {id} &&
      (forall other :: other in overrides && other != id ==> after[other] == overrides[other]) &&
      (id !in overrides && change.SetThreshold? ==>
        after[id] == Settings(global.enabled, change.threshold, global.notificationEmail, global.notificationDashboard)) &&
      (id in overrides && change.SetThreshold? ==> after[id] == overrides[id].(threshold := change.threshold))
  {
  }

  /**
   * Setting a threshold makes it the product's resolved threshold; clearing the input
   * (`undefined`) makes the product follow the global threshold again.
   */
  lemma SetThenResolve(overrides: map<int, Settings>, global: Settings, id: int, t: Threshold, other: int)
    ensures t != Unset ==> ResolveThreshold(ChangeSetting(overrides, global, id, SetThreshold(t)), global, id) == t
    ensures ResolveThreshold(ChangeSetting(overrides, global, id, SetThreshold(Unset)), global, id) == global.threshold
    ensures other != id ==>
      ResolveThreshold(ChangeSetting(overrides, global, id, SetThreshold(t)), global, other) ==
      ResolveThreshold(overrides, global, other)
  {
  }

  /** After a reset the product follows the global threshold, and the others keep theirs. */
  lemma ResetThenResolve(overrides: map<int, Settings>, global: Settings, id: int, other: int)
    ensures id !in ResetSetting(overrides, id)
    ensures ResolveThreshold(ResetSetting(overrides, id), global, id) == global.threshold
    ensures ListThreshold(ResetSetting(overrides, id), global, id) == global.threshold
    ensures other != id ==> ResolveThreshold(ResetSetting(overrides, id), global, other) == ResolveThreshold(overrides, global, other)
  {
  }

  /** The page's state. */
  class AlertSettingsPage {
    var products: seq<Product>
    var globalSettings: Settings
    var productSettings: map<int, Settings>
    var lowStockProducts: seq<Product>

    /** The effect has run: once there are products, the list matches them and the settings. */
    predicate Valid()
      reads this
    {
      |products| > 0 ==> lowStockProducts == LowStockList(products, productSettings, globalSettings)
    }

    constructor()
      ensures products == [] && lowStockProducts == []
      ensures globalSettings == DefaultGlobal && productSettings == map[]
      ensures Valid()
    {
      products := [];
      globalSettings := DefaultGlobal;
      productSettings := map[];
      lowStockProducts := [];
    }

    /** The low-stock effect: recomputed only when there are products; otherwise the old list stays. */
    method RefreshLowStock()
      modifies this
      ensures products == old(products) && globalSettings == old(globalSettings)
      ensures productSettings == old(productSettings)
      ensures |products| > 0 ==> lowStockProducts == LowStockList(products, productSettings, globalSettings)
      ensures |products| == 0 ==> lowStockProducts == old(lowStockProducts)
      ensures Valid()
    {
      if |products| > 0 {
        lowStockProducts := LowStockList(products, productSettings, globalSettings);
      }
    }

    /** `setProducts(data)` after a fetch, followed by the effect. */
    method SetProducts(data: seq<Product>)
      modifies this
      ensures products == data && globalSettings == old(globalSettings)
      ensures productSettings == old(productSettings)
      ensures |data| == 0 ==> lowStockProducts == old(lowStockProducts)
      ensures Valid()
    {
      products := data;
      RefreshLowStock();
    }

    /** `handleProductSettingChange(productId, field, value)`, followed by the effect. */
    method ProductSettingChange(productId: int, change: SettingChange)
      modifies this
      ensures productSettings == ChangeSetting(old(productSettings), old(globalSettings), productId, change)
      ensures products == old(products) && globalSettings == old(globalSettings)
      ensures |products| == 0 ==> lowStockProducts == old(lowStockProducts)
      ensures Valid()
    {
      productSettings := ChangeSetting(productSettings, globalSettings, productId, change);
      RefreshLowStock();
    }

    /** `handleResetProductSettings(productId)`, followed by the effect. */
    method ResetProductSettings(productId: int)
      modifies this
      ensures productSettings == ResetSetting(old(productSettings), productId)
      ensures products == old(products) && globalSettings == old(globalSettings)
      ensures |products| == 0 ==> lowStockProducts == old(lowStockProducts)
      ensures Valid()
    {
      productSettings := ResetSetting(productSettings, productId);
      RefreshLowStock();
    }

    /** `getProductThreshold(productId)` on the current state. */
    function ProductThreshold(productId: int): Threshold
      reads this
    {
      ResolveThreshold(productSettings, globalSettings, productId)
    }
  }
}
