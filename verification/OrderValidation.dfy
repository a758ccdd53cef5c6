/** The risk checks that every order of a group, and every order it triggers, must pass before it is sent. */
module OrderValidation {
  import opened Reals
  import opened Text

  datatype AssetClass = Equity | Etf | OptionContract | Future | Index | Unknown

  datatype OrderType = Limit | StopMarket | Market | StopLimit

  /** An order; `extendedHours` says whether its duration is one of DYP, GCP and GDP. */
  datatype Order = Order(
    account: string,
    assetClass: AssetClass,
    orderType: OrderType,
    extendedHours: bool,
    quantity: real,
    limitPrice: Option<real>,
    stopPrice: Option<real>,
    estimatedPrice: Option<real>,
    osos: seq<Order>)

  datatype RiskConfig = RiskConfig(
    allowlist: set<string>,
    killSwitch: bool,
    allowMarketOrders: bool,
    allowOptions: bool,
    allowFutures: bool,
    allowExtendedHours: bool,
    maxOrderNotional: real)

  datatype Failure =
    | NotAllowlisted
    | KillSwitchActive
    | UnknownAssetClass
    | MarketOrdersDisabled
    | OptionsDisabled
    | FuturesDisabled
    | ExtendedHoursDisabled
    | NotionalExceeded
    | NeedsEstimatedPrice

  // ---------- what an order request is ----------

  predicate IsPositive(x: Option<real>) {
    x.Some? ==> x.value > 0.0
  }

  /** What the request model enforces on construction, for the order and its triggered orders. */
  predicate IsRequest(o: Order) {
    && o.quantity > 0.0 && IsPositive(o.limitPrice) && IsPositive(o.stopPrice) && IsPositive(o.estimatedPrice)
    && (o.orderType.Limit? || o.orderType.StopLimit? ==> o.limitPrice.Some?)
    && (o.orderType.StopMarket? || o.orderType.StopLimit? ==> o.stopPrice.Some?)
    && forall i | 0 <= i < |o.osos| :: IsRequest(o.osos[i])
  }

  // ---------- the checks ----------

  /** Python's `or` on prices: an absent price and a price of zero give way to the next. */
  function Or(a: Option<real>, b: Option<real>): Option<real> {
    if a.Some? && a.value != 0.0 then a else b
  }

  function Amount(quantity: real, price: Option<real>): Option<real> {
    if price.None? then None else Some(Scaled(quantity, price.value))
  }

  function EstimatedNotional(o: Order): Option<real> {
    Amount(o.quantity, Or(o.estimatedPrice, Or(o.limitPrice, o.stopPrice)))
  }

  function SubmitFailure(account: string, c: RiskConfig): Option<Failure> {
    if account !in c.allowlist then Some(NotAllowlisted)
    else if c.killSwitch then Some(KillSwitchActive)
    else None
  }

  function SingleFailure(o: Order, c: RiskConfig): Option<Failure> {
    if o.assetClass.Unknown? then Some(UnknownAssetClass)
    else if o.orderType.Market? && !c.allowMarketOrders then Some(MarketOrdersDisabled)
    else if o.assetClass.OptionContract? && !c.allowOptions then Some(OptionsDisabled)
    else if o.assetClass.Future? && !c.allowFutures then Some(FuturesDisabled)
    else if o.extendedHours && !c.allowExtendedHours then Some(ExtendedHoursDisabled)
    else if EstimatedNotional(o).Some? && EstimatedNotional(o).value > c.maxOrderNotional then Some(NotionalExceeded)
    else if o.orderType.Market? && o.estimatedPrice.None? then Some(NeedsEstimatedPrice)
    else None
  }

  /** The checks of one order by itself. */
  function OwnFailure(o: Order, c: RiskConfig): Option<Failure> {
    var submit := SubmitFailure(o.account, c);
    if submit.Some? then submit else SingleFailure(o, c)
  }

  /** Validation of an order with everything it triggers: the first failure met, if any. */
  function OrderFailure(o: Order, c: RiskConfig): Option<Failure>
    decreases o, 1
  {
    var own := OwnFailure(o, c);
    if own.Some? then own else OsoFailure(o, 0, c)
  }

  function OsoFailure(o: Order, from: nat, c: RiskConfig): Option<Failure>
    requires from <= |o.osos|
    decreases o, 0, |o.osos| - from
  {
    if from == |o.osos| then None
    else
      var f := OrderFailure(o.osos[from], c);
      if f.Some? then f else OsoFailure(o, from + 1, c)
  }

  function GroupFailure(orders: seq<Order>, c: RiskConfig): Option<Failure> {
    if orders == [] then None
    else
      var f := OrderFailure(orders[0], c);
      if f.Some? then f else GroupFailure(orders[1..], c)
  }

  // ---------- the meaning ----------

  /** An order and all orders below it, parents first and siblings in order. */
  function Preorder(o: Order): seq<Order>
    decreases o, 1
  {
    [o] + PreorderFrom(o, 0)
  }

  function PreorderFrom(o: Order, from: nat): seq<Order>
    requires from <= |o.osos|
    decreases o, 0, |o.osos| - from
  {
    if from == |o.osos| then [] else Preorder(o.osos[from]) + PreorderFrom(o, from + 1)
  }

  function Forest(orders: seq<Order>): seq<Order> {
    if orders == [] then [] else Preorder(orders[0]) + Forest(orders[1..])
  }

  /** `f` is what the first failing order of the list fails with, or nothing fails. */
  ghost predicate IsFirstFailure(nodes: seq<Order>, c: RiskConfig, f: Option<Failure>) {
    match f
    case None => forall i | 0 <= i < |nodes| :: OwnFailure(nodes[i], c) == None
    case Some(_) =>
      exists k :: 0 <= k < |nodes| && OwnFailure(nodes[k], c) == f
                  && forall i | 0 <= i < k :: OwnFailure(nodes[i], c) == None
  }

  lemma {:induction false} FirstFailureOfTwo(
    a: seq<Order>, b: seq<Order>, c: RiskConfig, fa: Option<Failure>, fb: Option<Failure>)
    requires IsFirstFailure(a, c, fa) && IsFirstFailure(b, c, fb)
    ensures IsFirstFailure(a + b, c, if fa.Some? then fa else fb)
  {
    var ab := a + b;
    if fa.Some? {
      var k :| 0 <= k < |a| && OwnFailure(a[k], c) == fa && forall i | 0 <= i < k :: OwnFailure(a[i], c) == None;
      assert ab[k] == a[k];
    } else if fb.Some? {
      var k :| 0 <= k < |b| && OwnFailure(b[k], c) == fb && forall i | 0 <= i < k :: OwnFailure(b[i], c) == None;
      assert ab[|a| + k] == b[k];
    }
  }

  lemma {:induction false} OrderFailureIsFirst(o: Order, c: RiskConfig)
    ensures IsFirstFailure(Preorder(o), c, OrderFailure(o, c))
    decreases o, 1
  {
    OsoFailureIsFirst(o, 0, c);
    var own := OwnFailure(o, c);
    assert own.Some? ==> OwnFailure([o][0], c) == own;
    FirstFailureOfTwo([o], PreorderFrom(o, 0), c, own, OsoFailure(o, 0, c));
  }

  lemma {:induction false} OsoFailureIsFirst(o: Order, from: nat, c: RiskConfig)
    requires from <= |o.osos|
    ensures IsFirstFailure(PreorderFrom(o, from), c, OsoFailure(o, from, c))
    decreases o, 0, |o.osos| - from
  {
    if from < |o.osos| {
      OrderFailureIsFirst(o.osos[from], c);
      OsoFailureIsFirst(o, from + 1, c);
      FirstFailureOfTwo(Preorder(o.osos[from]), PreorderFrom(o, from + 1), c,
                        OrderFailure(o.osos[from], c), OsoFailure(o, from + 1, c));
    }
  }

  /**
   A group is accepted exactly when every order in it, at any depth, passes its own checks; otherwise the error is
   that of the first failing order, parents before what they trigger.
   */
  lemma {:induction false} GroupFailureIsFirst(orders: seq<Order>, c: RiskConfig)
    ensures IsFirstFailure(Forest(orders), c, GroupFailure(orders, c))
  {
    if orders != [] {
      OrderFailureIsFirst(orders[0], c);
      GroupFailureIsFirst(orders[1..], c);
      FirstFailureOfTwo(Preorder(orders[0]), Forest(orders[1..]), c,
                        OrderFailure(orders[0], c), GroupFailure(orders[1..], c));
    }
  }

  // ---------- what acceptance guarantees ----------

  lemma {:induction false} NodesAreRequests(o: Order)
    requires IsRequest(o)
    ensures forall n | n in Preorder(o) :: IsRequest(n)
    decreases o, 1
  {
    NodesFromAreRequests(o, 0);
  }

  lemma {:induction false} NodesFromAreRequests(o: Order, from: nat)
    requires IsRequest(o) && from <= |o.osos|
    ensures forall n | n in PreorderFrom(o, from) :: IsRequest(n)
    decreases o, 0, |o.osos| - from
  {
    if from < |o.osos| {
      NodesAreRequests(o.osos[from]);
      NodesFromAreRequests(o, from + 1);
    }
  }

  lemma {:induction false} ForestIsRequests(orders: seq<Order>)
    requires forall i | 0 <= i < |orders| :: IsRequest(orders[i])
    ensures forall n | n in Forest(orders) :: IsRequest(n)
  {
    if orders != [] {
      NodesAreRequests(orders[0]);
      ForestIsRequests(orders[1..]);
    }
  }

  /** A request that passes its checks is for an allowlisted account and has an amount, within the limit. */
  lemma {:induction false} PassedIsWithinLimit(o: Order, c: RiskConfig)
    requires IsRequest(o) && OwnFailure(o, c) == None
    ensures o.account in c.allowlist && !c.killSwitch
    ensures EstimatedNotional(o).Some? && EstimatedNotional(o).value <= c.maxOrderNotional
  {
  }

  function Total(nodes: seq<Order>): real {
    if nodes == [] then 0.0
    else (if EstimatedNotional(nodes[0]).Some? then EstimatedNotional(nodes[0]).value else 0.0) + Total(nodes[1..])
  }

  lemma {:induction false} TotalIsBounded(nodes: seq<Order>, c: RiskConfig)
    requires forall i | 0 <= i < |nodes| :: IsRequest(nodes[i]) && OwnFailure(nodes[i], c) == None
    ensures Total(nodes) <= Repeated(|nodes|, c.maxOrderNotional)
  {
    if nodes != [] {
      PassedIsWithinLimit(nodes[0], c);
      TotalIsBounded(nodes[1..], c);
    }
  }

  lemma {:induction false} TotalIsWithin(nodes: seq<Order>, c: RiskConfig)
    requires forall i | 0 <= i < |nodes| :: IsRequest(nodes[i]) && OwnFailure(nodes[i], c) == None
    ensures Total(nodes) <= |nodes| as real * c.maxOrderNotional
  {
    TotalIsBounded(nodes, c);
    RepeatedIsProduct(|nodes|, c.maxOrderNotional);
  }

  lemma {:induction false} AcceptedNodesPass(orders: seq<Order>, c: RiskConfig)
    requires forall i | 0 <= i < |orders| :: IsRequest(orders[i])
    requires GroupFailure(orders, c) == None
    ensures forall i | 0 <= i < |Forest(orders)| ::
              IsRequest(Forest(orders)[i]) && OwnFailure(Forest(orders)[i], c) == None
  {
    GroupFailureIsFirst(orders, c);
    ForestIsRequests(orders);
  }

  /** Every order of an accepted group, at every depth, has an amount within the limit. */
  lemma {:induction false} AcceptedOrdersAreWithinLimit(orders: seq<Order>, c: RiskConfig)
    requires forall i | 0 <= i < |orders| :: IsRequest(orders[i])
    requires GroupFailure(orders, c) == None
    ensures forall n | n in Forest(orders) ::
              n.account in c.allowlist && EstimatedNotional(n).Some? && EstimatedNotional(n).value <= c.maxOrderNotional
  {
    AcceptedNodesPass(orders, c);
    forall n | n in Forest(orders)
      ensures n.account in c.allowlist && EstimatedNotional(n).Some? && EstimatedNotional(n).value <= c.maxOrderNotional
    {
      PassedIsWithinLimit(n, c);
    }
  }

  /** An accepted group is worth at most the limit times the number of its orders at every depth. */
  lemma {:induction false} AcceptedGroupIsBounded(orders: seq<Order>, c: RiskConfig)
    requires forall i | 0 <= i < |orders| :: IsRequest(orders[i])
    requires GroupFailure(orders, c) == None
    ensures Total(Forest(orders)) <= |Forest(orders)| as real * c.maxOrderNotional
  {
    AcceptedNodesPass(orders, c);
    TotalIsWithin(Forest(orders), c);
  }

  // ---------- replacements ----------

  datatype Replacement = Replacement(
    toMarket: bool,
    quantity: Option<real>,
    limitPrice: Option<real>,
    stopPrice: Option<real>)

  function ReplaceNotional(r: Replacement): Option<real> {
    if r.quantity.None? then None else Amount(r.quantity.value, Or(r.limitPrice, r.stopPrice))
  }

  function ReplaceFailure(r: Replacement, c: RiskConfig): Option<Failure> {
    if r.toMarket && !c.allowMarketOrders then Some(MarketOrdersDisabled)
    else if ReplaceNotional(r).Some? && ReplaceNotional(r).value > c.maxOrderNotional then Some(NotionalExceeded)
    else None
  }
}
