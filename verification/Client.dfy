/**
 The client above the REST layer: placing checked orders and what the caller may believe afterwards, and replacing and
 cancelling only after an account-scoped look.
 */
module Client {
  import opened Text
  import opened JsonValue
  import opened OrderValidation
  import opened RateLimit
  import opened Rest

  // ---------- trades ----------

  /** One order of an acknowledgement: the text found under its id keys, tried in turn, or something else there. */
  datatype IdField = Falsy | IdText(text: string) | NotText

  datatype AckOrder = AckOrder(ids: seq<IdField>)

  datatype Ack = Ack(orderId: Option<string>, orders: seq<AckOrder>, errors: seq<Value>)

  function Strip(s: string): string {
    Rstrip(Lstrip(s))
  }

  function Rstrip(s: string): string {
    if s != "" && IsPythonSpace(s[|s| - 1]) then Rstrip(s[..|s| - 1]) else s
  }

  /** The first truthy id of an order, if it is text that is not blank. */
  function UsableId(ids: seq<IdField>): Option<string> {
    if ids == [] then None
    else
      match ids[0]
      case NotText => None
      case IdText(text) =>
        if text == "" then UsableId(ids[1..]) else if Strip(text) == "" then None else Some(Strip(text))
      case Falsy => UsableId(ids[1..])
  }

  function FirstUsable(orders: seq<AckOrder>): Option<string> {
    if orders == [] then None
    else
      var id := UsableId(orders[0].ids);
      if id.Some? then id else FirstUsable(orders[1..])
  }

  function FirstOrderId(ack: Ack): Option<string> {
    if ack.orderId.Some? && ack.orderId.value != "" then ack.orderId else FirstUsable(ack.orders)
  }

  datatype Snapshot = Snapshot(orderId: string, account: Option<string>)

  datatype Trade = Trade(ack: Option<Ack>, latest: Option<Snapshot>, events: seq<Value>, ambiguous: bool) {
    function OrderId(): Option<string> {
      if latest.Some? then Some(latest.value.orderId)
      else if ack.Some? then FirstOrderId(ack.value)
      else None
    }

    predicate ReconcileRequired() {
      ambiguous || (ack.Some? && (OrderId().None? || ack.value.errors != []))
    }
  }

  datatype Update = WithSnapshot(snapshot: Snapshot) | WithEvent(event: Value)

  function Updated(t: Trade, u: Update): Trade {
    match u
    case WithSnapshot(s) => t.(latest := Some(s))
    case WithEvent(e) => t.(events := t.events + [e])
  }

  function AfterUpdates(t: Trade, us: seq<Update>): Trade
    decreases |us|
  {
    if us == [] then t else AfterUpdates(Updated(t, us[0]), us[1..])
  }

  lemma {:induction false} RstripKeepsFront(s: string)
    requires s != "" && !IsPythonSpace(s[0])
    ensures var r := Rstrip(s); r != "" && r[0] == s[0] && !IsPythonSpace(r[|r| - 1])
  {
    if IsPythonSpace(s[|s| - 1]) {
      RstripKeepsFront(s[..|s| - 1]);
    }
  }

  lemma {:induction false} StripIsStable(s: string, r: string)
    requires r == Strip(s)
    ensures Strip(r) == r
  {
    var left := Lstrip(s);
    if left != "" {
      RstripKeepsFront(left);
      LstripIdle(r);
    }
  }

  lemma {:induction false} FirstUsableIsStripped(orders: seq<AckOrder>)
    ensures FirstUsable(orders).Some? ==>
              FirstUsable(orders).value != "" && Strip(FirstUsable(orders).value) == FirstUsable(orders).value
  {
    if orders != [] {
      UsableIdIsStripped(orders[0].ids);
      FirstUsableIsStripped(orders[1..]);
    }
  }

  lemma {:induction false} UsableIdIsStripped(ids: seq<IdField>)
    ensures UsableId(ids).Some? ==> UsableId(ids).value != "" && Strip(UsableId(ids).value) == UsableId(ids).value
  {
    if ids != [] {
      if ids[0].IdText? {
        StripIsStable(ids[0].text, Strip(ids[0].text));
      }
      UsableIdIsStripped(ids[1..]);
    }
  }

  lemma {:induction false} FirstOrderIdIsNotEmpty(ack: Ack)
    ensures FirstOrderId(ack).Some? ==> FirstOrderId(ack).value != ""
  {
    FirstUsableIsStripped(ack.orders);
  }

  /** An id of white space only is taken from the top of an acknowledgement, and from nowhere else. */
  lemma {:induction false} FirstOrderIdIsBlankIff(ack: Ack)
    ensures FirstOrderId(ack).Some? && Strip(FirstOrderId(ack).value) == "" <==>
            ack.orderId.Some? && ack.orderId.value != "" && Strip(ack.orderId.value) == ""
    ensures FirstOrderId(ack).Some? && FirstOrderId(ack) != ack.orderId ==>
              Strip(FirstOrderId(ack).value) == FirstOrderId(ack).value
  {
    FirstUsableIsStripped(ack.orders);
  }

  /** Such an acknowledgement asks for no reconciliation. */
  lemma {:induction false} BlankIdIsAccepted()
    ensures var t := Trade(Some(Ack(Some(" "), [], [])), None, [], false);
            !t.ReconcileRequired() && t.OrderId() == Some(" ") && Strip(" ") == ""
  {
    assert Lstrip(" ") == "" by {
      LstripOfGap(" ", "");
      assert " " + "" == " ";
    }
  }

  /**
   The reconcile flag after any updates: an ambiguous write or a reported error keeps it for good; only a missing
   order id is cleared, and only by a snapshot of the order.
   */
  lemma {:induction false} FlagAfterUpdates(t: Trade, us: seq<Update>)
    ensures AfterUpdates(t, us).ReconcileRequired() <==>
            || t.ambiguous
            || (t.ack.Some? && t.ack.value.errors != [])
            || (t.ack.Some? && t.OrderId().None? && forall i | 0 <= i < |us| :: us[i].WithEvent?)
    decreases |us|
  {
    if us != [] {
      var next := Updated(t, us[0]);
      FlagAfterUpdates(next, us[1..]);
      assert forall i | 0 <= i < |us| - 1 :: us[1..][i] == us[i + 1];
      assert (forall i | 0 <= i < |us| :: us[i].WithEvent?) <==>
             us[0].WithEvent? && (forall i | 0 <= i < |us| - 1 :: us[1..][i].WithEvent?);
    }
  }

  // ---------- requests and refusals ----------

  datatype GroupType = Oco | Bracket | Normal

  datatype Config = Config(
    risk: RiskConfig,
    tradeScope: bool,
    readScope: bool,
    supportsSingleOrders: bool,
    supportsGroupOrders: bool,
    supportsOco: bool,
    supportsBracket: bool,
    supportsReplace: bool)

  /** A request that reached the REST layer, with its outcome. */
  datatype Request =
    | LookUp(account: string, orderId: string, outcome: Outcome)
    | PostOrders(orders: seq<Order>, outcome: Outcome)
    | PutOrder(orderId: string, replacement: Replacement, outcome: Outcome)
    | DeleteOrder(orderId: string, outcome: Outcome)

  datatype Refusal =
    | MissingScope
    | MissingCapability
    | NotAllowed
    | KillSwitch
    | BlankOrderId
    | Risk(failure: Failure)
    | LookUpFailed(outcome: Outcome)
    | NotThisAccount
    | InvalidReplacement

  datatype Placed = Traded(trade: Trade) | NotTraded(outcome: Outcome) | Unsent(reason: Refusal)

  datatype WriteResult = Refused(reason: Refusal) | Written(outcome: Outcome)

  /** What the requests of one call meet, and the draws of their sleeps. */
  datatype Weather = Weather(lookUp: nat -> Turn, write: nat -> Turn, draws: nat -> real)

  /** How responses are read: the orders that one lists, and the acknowledgement in another. */
  datatype Reading = Reading(ordersOf: Value -> seq<Snapshot>, ackOf: Value -> Ack)

  predicate Matches(s: Snapshot, account: string, orderId: string) {
    s.orderId == orderId && (s.account == None || s.account == Some(account))
  }

  predicate Lists(orders: seq<Snapshot>, account: string, orderId: string) {
    exists i | 0 <= i < |orders| :: Matches(orders[i], account, orderId)
  }

  /** A successful look-up of an allowlisted account that lists this very order for that account or for none. */
  predicate Clears(c: Config, reading: Reading, r: Request, orderId: string) {
    && r.LookUp? && r.orderId == orderId && r.account in c.risk.allowlist
    && r.outcome.Returned? && Lists(reading.ordersOf(r.outcome.fields), r.account, orderId)
  }

  /** Request `i` was allowed to be sent, given the requests since `from`. */
  ghost predicate IsPermitted(c: Config, reading: Reading, trace: seq<Request>, from: nat, i: nat)
    requires i < |trace|
  {
    match trace[i]
    case LookUp(account, _, _) => c.readScope && account in c.risk.allowlist
    case PostOrders(orders, _) => c.tradeScope && forall n | n in Forest(orders) :: OwnFailure(n, c.risk) == None
    case PutOrder(id, replacement, _) =>
      && c.tradeScope && c.supportsReplace && !c.risk.killSwitch && ReplaceFailure(replacement, c.risk) == None
      && exists j | from <= j < i :: Clears(c, reading, trace[j], id)
    case DeleteOrder(id, _) => c.tradeScope && exists j | from <= j < i :: Clears(c, reading, trace[j], id)
  }

  /** Every request sent since `from` was permitted, writes of existing orders by a look-up since then. */
  ghost predicate AllPermitted(c: Config, reading: Reading, trace: seq<Request>, from: nat) {
    forall i: nat | from <= i < |trace| :: IsPermitted(c, reading, trace, from, i)
  }

  lemma {:induction false} PermissionsAddUp(c: Config, reading: Reading, trace: seq<Request>, more: seq<Request>)
    requires AllPermitted(c, reading, trace, 0) && trace <= more && AllPermitted(c, reading, more, |trace|)
    ensures AllPermitted(c, reading, more, 0)
  {
    forall i: nat | i < |more|
      ensures IsPermitted(c, reading, more, 0, i)
    {
      if i < |trace| {
        assert IsPermitted(c, reading, trace, 0, i) && trace[i] == more[i];
      } else {
        assert IsPermitted(c, reading, more, |trace|, i);
      }
    }
  }

  predicate IsLookUp(r: Request, account: string, orderId: string) {
    r.LookUp? && r.account == account && r.orderId == orderId
  }

  /** A look-up that clears an order, followed by a write of that order. */
  lemma {:induction false} WriteAfterLookUp(c: Config, reading: Reading, trace: seq<Request>, more: seq<Request>)
    requires AllPermitted(c, reading, trace, 0) && trace <= more && |more| == |trace| + 2
    requires IsPermitted(c, reading, more, |trace|, |trace|)
    requires
      match more[|trace| + 1]
      case PutOrder(id, replacement, _) =>
        && Clears(c, reading, more[|trace|], id) && c.tradeScope && c.supportsReplace && !c.risk.killSwitch
        && ReplaceFailure(replacement, c.risk) == None
      case DeleteOrder(id, _) => Clears(c, reading, more[|trace|], id) && c.tradeScope
      case _ => false
    ensures AllPermitted(c, reading, more, |trace|) && AllPermitted(c, reading, more, 0)
  {
    assert IsPermitted(c, reading, more, |trace|, |trace| + 1);
    PermissionsAddUp(c, reading, trace, more);
  }

  // ---------- what a new trade means ----------

  /** A placement that was sent: the result comes from the verdict on a write of `n` turns. */
  ghost predicate IsPlacement(world: nat -> Turn, p: RetryPolicy, ackOf: Value -> Ack, placed: Placed, n: nat) {
    && IsRun(world, p, false, n)
    && placed == match Verdict(world, false, n - 1)
                 case Ambiguous => Traded(Trade(None, None, [], true))
                 case Returned(fields) => Traded(Trade(Some(ackOf(fields)), None, [], false))
                 case other => NotTraded(other)
  }

  /**
   What a caller may conclude from a new trade that does not ask for reconciliation: the broker answered success
   with an object, that object names an order and reports no error, and the order was applied at most once.
   */
  lemma {:induction false} CleanTradeIsConfirmed(
    world: nat -> Turn, p: RetryPolicy, ackOf: Value -> Ack, placed: Placed, n: nat)
    requires IsPlacement(world, p, ackOf, placed, n) && forall i: nat :: Is401(world(i)) ==> !world(i).applied
    requires placed.Traded? && !placed.trade.ReconcileRequired()
    ensures world(n - 1).Sent? && world(n - 1).answer.Response?
            && IsSuccess(world(n - 1).answer.status) && world(n - 1).answer.body.Object?
            && placed.trade.ack == Some(ackOf(world(n - 1).answer.body.fields))
    ensures placed.trade.ack.value.errors == []
    ensures placed.trade.OrderId().Some? && placed.trade.OrderId().value != ""
    ensures TimesApplied(world, n) <= 1
  {
    WritesApplyAtMostOnce(world, p, n);
    FirstOrderIdIsNotEmpty(placed.trade.ack.value);
  }

  /**
   No order that the broker applied is lost from sight: a placement that raises instead of giving a trade did so on
   a status that is neither a success nor ambiguous.
   */
  lemma {:induction false} AppliedOrderIsReported(
    world: nat -> Turn, p: RetryPolicy, ackOf: Value -> Ack, placed: Placed, n: nat)
    requires IsPlacement(world, p, ackOf, placed, n) && TimesApplied(world, n) >= 1
    requires forall i: nat :: Is401(world(i)) ==> !world(i).applied
    ensures placed.Traded? || (placed.NotTraded? && placed.outcome.ApiError?
            && !IsSuccess(placed.outcome.status) && placed.outcome.status !in AMBIGUOUS_WRITE_STATUSES)
    ensures placed.Traded? && placed.trade.ack.None? ==> placed.trade.ReconcileRequired()
  {
    DefiniteWriteOutcome(world, p, n);
  }

  class TradeStationClient {
    const config: Config
    const policy: RetryPolicy
    const reading: Reading
    var trace: seq<Request>

    /** Every request the client ever sent was permitted. */
    ghost predicate Valid()
      reads this
    {
      AllPermitted(config, reading, trace, 0)
    }

    constructor (config: Config, policy: RetryPolicy, reading: Reading)
      ensures this.config == config && this.policy == policy && this.reading == reading && trace == []
      ensures Valid()
    {
      this.config := config;
      this.policy := policy;
      this.reading := reading;
      trace := [];
    }

    /** Sends orders that have been checked and wraps the verdict into a trade. */
    method Post(orders: seq<Order>, w: Weather) returns (placed: Placed, ghost turns: nat)
      requires Valid() && config.tradeScope && forall n | n in Forest(orders) :: OwnFailure(n, config.risk) == None
      modifies this`trace
      ensures Valid() && IsPlacement(w.write, policy, reading.ackOf, placed, turns)
      ensures trace == old(trace) + [PostOrders(orders, Verdict(w.write, false, turns - 1))]
    {
      var outcome, n, _ := RequestJson(w.write, policy, false, w.draws);
      turns := n;
      trace := trace + [PostOrders(orders, outcome)];
      PermissionsAddUp(config, reading, old(trace), trace);
      match outcome {
        case Ambiguous => placed := Traded(Trade(None, None, [], true));
        case Returned(fields) => placed := Traded(Trade(Some(reading.ackOf(fields)), None, [], false));
        case _ => placed := NotTraded(outcome);
      }
    }

    /** Places one order; nothing is sent unless the order and all orders it triggers pass their checks. */
    method PlaceOrder(order: Order, w: Weather) returns (placed: Placed, ghost turns: nat)
      requires Valid()
      modifies this`trace
      ensures Valid()
      ensures placed.Unsent? <==>
              !config.tradeScope || !config.supportsSingleOrders
              || exists n :: n in Preorder(order) && OwnFailure(n, config.risk).Some?
      ensures placed.Unsent? ==> trace == old(trace)
      ensures !placed.Unsent? ==>
                IsPlacement(w.write, policy, reading.ackOf, placed, turns)
                && trace == old(trace) + [PostOrders([order], Verdict(w.write, false, turns - 1))]
    {
      turns := 0;
      if !config.tradeScope {
        return Unsent(MissingScope), turns;
      }
      if !config.supportsSingleOrders {
        return Unsent(MissingCapability), turns;
      }
      var failure := OrderFailure(order, config.risk);
      OrderFailureIsFirst(order, config.risk);
      if failure.Some? {
        return Unsent(Risk(failure.value)), turns;
      }
      assert Forest([order]) == Preorder(order);
      placed, turns := Post([order], w);
    }

    /** Places a group of orders, all of which pass their checks or none is sent. */
    method PlaceOrderGroup(kind: GroupType, orders: seq<Order>, w: Weather) returns (placed: Placed, ghost turns: nat)
      requires Valid()
      modifies this`trace
      ensures Valid()
      ensures placed.Unsent? <==>
              || !config.tradeScope || !config.supportsGroupOrders
              || (kind.Oco? && !config.supportsOco) || (kind.Bracket? && !config.supportsBracket)
              || exists n :: n in Forest(orders) && OwnFailure(n, config.risk).Some?
      ensures placed.Unsent? ==> trace == old(trace)
      ensures !placed.Unsent? ==>
                IsPlacement(w.write, policy, reading.ackOf, placed, turns)
                && trace == old(trace) + [PostOrders(orders, Verdict(w.write, false, turns - 1))]
    {
      turns := 0;
      if !config.tradeScope {
        return Unsent(MissingScope), turns;
      }
      if !config.supportsGroupOrders {
        return Unsent(MissingCapability), turns;
      }
      if (kind.Oco? && !config.supportsOco) || (kind.Bracket? && !config.supportsBracket) {
        return Unsent(MissingCapability), turns;
      }
      var failure := GroupFailure(orders, config.risk);
      GroupFailureIsFirst(orders, config.risk);
      if failure.Some? {
        return Unsent(Risk(failure.value)), turns;
      }
      placed, turns := Post(orders, w);
    }

    /** The look before a write; reports the order as found or says why not. */
    method AssertOrderBelongsToAccount(account: string, orderId: string, w: Weather) returns (refusal: Option<Refusal>)
      requires Valid() && config.readScope && account in config.risk.allowlist
      modifies this`trace
      ensures Valid()
      ensures exists outcome :: trace == old(trace) + [LookUp(account, orderId, outcome)]
      ensures refusal == None <==> Clears(config, reading, trace[|old(trace)|], orderId)
      ensures refusal.Some? ==> refusal.value.LookUpFailed? || refusal.value.NotThisAccount?
    {
      var outcome, _, _ := RequestJson(w.lookUp, policy, true, w.draws);
      trace := trace + [LookUp(account, orderId, outcome)];
      PermissionsAddUp(config, reading, old(trace), trace);
      if !outcome.Returned? {
        return Some(LookUpFailed(outcome));
      }
      var matches := reading.ordersOf(outcome.fields);
      var i := 0;
      while i < |matches|
        invariant i <= |matches|
        invariant forall k | 0 <= k < i :: !Matches(matches[k], account, orderId)
      {
        if matches[i].orderId == orderId && (matches[i].account == None || matches[i].account == Some(account)) {
          return None;
        }
        i := i + 1;
      }
      return Some(NotThisAccount);
    }

    /**
     Replaces an order.  `replacement` is absent when the caller's value cannot be turned into a replace request.
     Whatever this call sends is permitted by what this call has looked up.
     */
    method ReplaceOrder(account: string, orderId: string, replacement: Option<Replacement>, w: Weather)
      returns (r: WriteResult)
      requires Valid()
      modifies this`trace
      ensures Valid() && AllPermitted(config, reading, trace, |old(trace)|)
      ensures old(trace) <= trace && |trace| <= |old(trace)| + 2
      ensures trace != old(trace) ==> IsLookUp(trace[|old(trace)|], account, Strip(orderId))
      ensures r.Written? <==> |trace| == |old(trace)| + 2
      ensures r.Written? <==>
              && trace != old(trace) && Clears(config, reading, trace[|old(trace)|], Strip(orderId))
              && replacement.Some? && ReplaceFailure(replacement.value, config.risk) == None
      ensures r.Written? ==> trace[|old(trace)| + 1] == PutOrder(Strip(orderId), replacement.value, r.outcome)
      ensures trace == old(trace) <==>
              || !config.tradeScope || !config.readScope || !config.supportsReplace
              || account !in config.risk.allowlist || config.risk.killSwitch || Strip(orderId) == ""
    {
      if !config.tradeScope || !config.readScope {
        return Refused(MissingScope);
      }
      if !config.supportsReplace {
        return Refused(MissingCapability);
      }
      if account !in config.risk.allowlist {
        return Refused(NotAllowed);
      }
      if config.risk.killSwitch {
        return Refused(KillSwitch);
      }
      var cleaned := Strip(orderId);
      if cleaned == "" {
        return Refused(BlankOrderId);
      }
      var refusal := AssertOrderBelongsToAccount(account, cleaned, w);
      if refusal.Some? {
        return Refused(refusal.value);
      }
      if replacement.None? {
        return Refused(InvalidReplacement);
      }
      var failure := ReplaceFailure(replacement.value, config.risk);
      if failure.Some? {
        return Refused(Risk(failure.value));
      }
      var outcome, _, _ := RequestJson(w.write, policy, false, w.draws);
      trace := trace + [PutOrder(cleaned, replacement.value, outcome)];
      WriteAfterLookUp(config, reading, old(trace), trace);
      return Written(outcome);
    }

    /** Cancels an order; allowed with the kill switch on, otherwise under the same look before the write. */
    method CancelOrder(account: string, orderId: string, w: Weather) returns (r: WriteResult)
      requires Valid()
      modifies this`trace
      ensures Valid() && AllPermitted(config, reading, trace, |old(trace)|)
      ensures old(trace) <= trace && |trace| <= |old(trace)| + 2
      ensures trace != old(trace) ==> IsLookUp(trace[|old(trace)|], account, Strip(orderId))
      ensures r.Written? <==> |trace| == |old(trace)| + 2
      ensures r.Written? ==> trace[|old(trace)| + 1] == DeleteOrder(Strip(orderId), r.outcome)
      ensures r.Written? <==> trace != old(trace) && Clears(config, reading, trace[|old(trace)|], Strip(orderId))
      ensures trace == old(trace) <==>
              !config.tradeScope || !config.readScope || account !in config.risk.allowlist || Strip(orderId) == ""
    {
      if !config.tradeScope || !config.readScope {
        return Refused(MissingScope);
      }
      if account !in config.risk.allowlist {
        return Refused(NotAllowed);
      }
      var cleaned := Strip(orderId);
      if cleaned == "" {
        return Refused(BlankOrderId);
      }
      var refusal := AssertOrderBelongsToAccount(account, cleaned, w);
      if refusal.Some? {
        return Refused(refusal.value);
      }
      var outcome, _, _ := RequestJson(w.write, policy, false, w.draws);
      trace := trace + [DeleteOrder(cleaned, outcome)];
      WriteAfterLookUp(config, reading, old(trace), trace);
      return Written(outcome);
    }
  }
}
