/**
 Refreshing the stored OAuth token from many threads and processes at once: unlocked loads, one refresh at a time
 per manager, the token request (section 6 of RFC 6749), and the compare-and-swap under the lock file.
 */
module TokenRefresh {
  import opened Text
  import opened TokenLock

  const REFRESH_MARGIN := 120.0
  const DEFAULT_LIFETIME := 1200

  datatype Token = Token(access: string, refresh: Option<string>, expires: real)

  /** The token endpoint's object; an absent or empty refresh token is "", unusable lifetimes are absent. */
  datatype Payload = Payload(access: Option<string>, refresh: string, lifetime: Option<int>)

  function FromTokenResponse(p: Payload, existing: Option<string>, now: real): (t: Option<Token>)
    ensures t.Some? <==> p.access.Some?
  {
    var refresh := if p.refresh != "" then Some(p.refresh) else existing;
    var lifetime := if p.lifetime.Some? then p.lifetime.value else DEFAULT_LIFETIME;
    match p.access
    case None => None
    case Some(access) =>
      Some(Token(access, if refresh == Some("") then None else refresh, now + lifetime as real))
  }

  predicate ExpiresSoon(t: Token, now: real) { t.expires <= now + REFRESH_MARGIN }

  function RefreshOf(t: Option<Token>): Option<string> { if t.Some? then t.value.refresh else None }

  // ---------- the store object of one process ----------

  /** The in-memory store; the file store does the same under the lock, with a rename as its only write. */
  class MemoryTokenStore {
    var token: Option<Token>

    constructor (token: Option<Token>)
      ensures this.token == token
    {
      this.token := token;
    }

    method Load() returns (t: Option<Token>)
      ensures t == token
    {
      t := token;
    }

    method Save(t: Token)
      modifies this
      ensures token == Some(t)
    {
      token := Some(t);
    }

    method CompareAndSwapRefreshToken(expected: Option<string>, replacement: Token) returns (swapped: bool)
      modifies this
      ensures swapped <==> RefreshOf(old(token)) == expected
      ensures token == if swapped then Some(replacement) else old(token)
    {
      var current := Load();
      if RefreshOf(current) != expected {
        return false;
      }
      Save(replacement);
      return true;
    }
  }

  // ---------- the system ----------

  /** How far the guarded write of a call has come. */
  datatype Progress = NeedLock | Locked | Matched | Done(swapped: bool)

  datatype Stage =
    | Queued                                                       // waits for its manager's refresh lock
    | Holding                                                      // has it, is about to load
    | Asking(current: Token)                                       // token request under way
    | Swapping(used: string, replacement: Token, progress: Progress)
    | Reloading                                                    // lost the swap, is about to load the winner
    | Saving(token: Token, progress: Progress)                     // stores a token from an authorization code

  /** `started` is the number of store contents that were already past when the call began. */
  datatype Call = Call(manager: nat, force: bool, started: nat, stage: Stage)

  datatype Returned = Returned(token: Token, started: nat)

  datatype Sent = Sent(force: bool, current: Token, at: real, version: nat)

  datatype Grant = Grant(used: string, token: Token)

  datatype Swap = Swap(before: Option<Token>, used: string, installed: Token)

  /** `history` lists all contents of the store so far, the present one last. */
  datatype System = System(
    lock: Lock,
    history: seq<Option<Token>>,
    calls: map<Actor, Call>,
    returned: seq<Returned>,
    sent: seq<Sent>,
    grants: seq<Grant>,
    swaps: seq<Swap>)

  datatype Act =
    | LockAct(step: Step)
    | Get(a: Actor, manager: nat)
    | Force(a: Actor, manager: nat)
    | Enter(a: Actor)
    | Load(a: Actor)
    | Reply(a: Actor, payload: Option<Payload>)
    | Compare(a: Actor)
    | Write(a: Actor)
    | Reload(a: Actor)
    | Exchange(a: Actor, token: Token)

  function Store(s: System): Option<Token>
    requires s.history != []
  {
    s.history[|s.history| - 1]
  }

  predicate OwnsManager(c: Call) { !c.stage.Queued? && !c.stage.Saving? }

  function ProgressOf(c: Call): Progress {
    if c.stage.Swapping? || c.stage.Saving? then c.stage.progress else NeedLock
  }

  predicate Writes(c: Call) { c.stage.Swapping? || c.stage.Saving? }

  function Advance(c: Call, p: Progress): Call
    requires Writes(c)
  {
    c.(stage := c.stage.(progress := p))
  }

  predicate MayTakeLockStep(s: System, step: Step) {
    && Enabled(s.lock, step) && Careful(s.lock, step)
    && match step
       case Begin(a) => a in s.calls && Writes(s.calls[a]) && ProgressOf(s.calls[a]).NeedLock?
       case Exit(a) => a in s.calls && ProgressOf(s.calls[a]).Done?
       case _ => true
  }

  predicate May(s: System, act: Act)
    requires s.history != []
  {
    match act
    case LockAct(step) => MayTakeLockStep(s, step)
    case Get(a, _) => a.pid in s.lock.alive && a !in s.calls && a !in s.lock.phases
    case Force(a, _) => a.pid in s.lock.alive && a !in s.calls && a !in s.lock.phases
    case Exchange(a, _) => a.pid in s.lock.alive && a !in s.calls && a !in s.lock.phases
    case Enter(a) =>
      a in s.calls && s.calls[a].stage.Queued?
      && forall b | b in s.calls && OwnsManager(s.calls[b]) :: s.calls[b].manager != s.calls[a].manager
    case Load(a) => a in s.calls && s.calls[a].stage.Holding?
    case Reply(a, _) => a in s.calls && s.calls[a].stage.Asking?
    case Compare(a) => a in s.calls && ProgressOf(s.calls[a]).Locked?
    case Write(a) => a in s.calls && ProgressOf(s.calls[a]).Matched?
    case Reload(a) => a in s.calls && s.calls[a].stage.Reloading?
  }

  function Put(s: System, a: Actor, c: Call): System { s.(calls := s.calls[a := c]) }

  function Drop(s: System, a: Actor): System { s.(calls := s.calls - {a}) }

  function Return(s: System, a: Actor, t: Token): System
    requires a in s.calls
  {
    Drop(s, a).(returned := s.returned + [Returned(t, s.calls[a].started)])
  }

  function DoLockStep(s: System, step: Step): System
    requires MayTakeLockStep(s, step)
  {
    var t := s.(lock := Apply(s.lock, step));
    match step
    case Crash(pid) => t.(calls := map a | a in s.calls && a.pid != pid :: s.calls[a])
    case WritePid(a) =>
      if a in s.calls && Writes(s.calls[a]) then Put(t, a, Advance(s.calls[a], Locked)) else t
    case WriteFails(a) => Drop(t, a)
    case GiveUp(a) => Drop(t, a)
    case Exit(a) =>
      var c := s.calls[a];
      if c.stage.Saving? then Return(t, a, c.stage.token)
      else if c.stage.progress.swapped then Return(t, a, c.stage.replacement)
      else Put(t, a, c.(stage := Reloading))
    case _ => t
  }

  function Do(s: System, act: Act): System
    requires s.history != [] && May(s, act)
  {
    match act
    case LockAct(step) => DoLockStep(s, step)
    case Get(a, m) =>
      var started := |s.history| - 1;
      if Store(s).None? then s
      else if ExpiresSoon(Store(s).value, s.lock.clock) then Put(s, a, Call(m, false, started, Queued))
      else s.(returned := s.returned + [Returned(Store(s).value, started)])
    case Force(a, m) => Put(s, a, Call(m, true, |s.history| - 1, Queued))
    case Exchange(a, token) => Put(s, a, Call(0, false, |s.history| - 1, Saving(token, NeedLock)))
    case Enter(a) => Put(s, a, s.calls[a].(stage := Holding))
    case Load(a) =>
      var c := s.calls[a];
      if RefreshOf(Store(s)).None? then Drop(s, a)
      else
        var current := Store(s).value;
        if !c.force && !ExpiresSoon(current, s.lock.clock) then Return(s, a, current)
        else
          Put(s, a, c.(stage := Asking(current)))
            .(sent := s.sent + [Sent(c.force, current, s.lock.clock, |s.history| - 1)])
    case Reply(a, payload) =>
      var current := s.calls[a].stage.current;
      var replacement := if payload.None? then None
                         else FromTokenResponse(payload.value, current.refresh, s.lock.clock);
      if replacement.None? || current.refresh.None? then Drop(s, a)
      else
        var used := current.refresh.value;
        Put(s, a, s.calls[a].(stage := Swapping(used, replacement.value, NeedLock)))
          .(grants := s.grants + [Grant(used, replacement.value)])
    case Compare(a) =>
      var c := s.calls[a];
      if c.stage.Saving? || RefreshOf(Store(s)) == Some(c.stage.used) then Put(s, a, Advance(c, Matched))
      else Put(s, a, Advance(c, Done(false)))
    case Write(a) =>
      var c := s.calls[a];
      if c.stage.Saving? then
        Put(s, a, Advance(c, Done(true))).(history := s.history + [Some(c.stage.token)])
      else
        Put(s, a, Advance(c, Done(true)))
          .(history := s.history + [Some(c.stage.replacement)],
            swaps := s.swaps + [Swap(Store(s), c.stage.used, c.stage.replacement)])
    case Reload(a) =>
      if Store(s).None? then Drop(s, a) else Return(s, a, Store(s).value)
  }

  // ---------- invariants ----------

  /** The stages agree with the lock: whoever is past the lock is the one inside it. */
  ghost predicate LockAgrees(s: System) {
    && CarefulInv(s.lock)
    && (forall a | a in s.lock.phases :: a in s.calls && Writes(s.calls[a]))
    && (forall a | a in s.calls && !ProgressOf(s.calls[a]).NeedLock? :: IsInside(s.lock, a))
    && (forall a | IsInside(s.lock, a) :: !ProgressOf(s.calls[a]).NeedLock?)
    && (forall a | a in s.calls :: a.pid in s.lock.alive)
    && (forall a | a in s.calls && s.calls[a].stage.Saving? :: s.calls[a].stage.progress != Done(false))
  }

  /** A matched swap still matches: nobody else can write the store in between. */
  ghost predicate MatchesHold(s: System)
    requires s.history != []
  {
    forall a | a in s.calls && s.calls[a].stage.Swapping? && s.calls[a].stage.progress.Matched? ::
      RefreshOf(Store(s)) == Some(s.calls[a].stage.used)
  }

  /** The token was in the store at some moment since the call that started at `started`. */
  ghost predicate StoredSince(history: seq<Option<Token>>, started: nat, t: Token) {
    exists i | started <= i < |history| :: history[i] == Some(t)
  }

  ghost predicate ReturnsWereStored(s: System) {
    && (forall i | 0 <= i < |s.returned| :: StoredSince(s.history, s.returned[i].started, s.returned[i].token))
    && (forall a | a in s.calls :: s.calls[a].started < |s.history|)
    && (forall a | a in s.calls && s.calls[a].stage.Swapping? && s.calls[a].stage.progress == Done(true) ::
          StoredSince(s.history, s.calls[a].started, s.calls[a].stage.replacement))
    && (forall a | a in s.calls && s.calls[a].stage.Saving? && s.calls[a].stage.progress == Done(true) ::
          StoredSince(s.history, s.calls[a].started, s.calls[a].stage.token))
  }

  /** No lost refresh: every swap replaced the token whose refresh token earned the replacement. */
  ghost predicate SwapsAreEarned(s: System) {
    && (forall i | 0 <= i < |s.swaps| ::
          RefreshOf(s.swaps[i].before) == Some(s.swaps[i].used)
          && Grant(s.swaps[i].used, s.swaps[i].installed) in s.grants)
    && (forall a | a in s.calls && s.calls[a].stage.Swapping? ::
          Grant(s.calls[a].stage.used, s.calls[a].stage.replacement) in s.grants)
  }

  /** Token requests are sent with what was in the store, and unforced ones only near expiry. */
  ghost predicate RequestsAreDue(s: System) {
    forall i | 0 <= i < |s.sent| ::
      var r := s.sent[i];
      && r.version < |s.history| && s.history[r.version] == Some(r.current) && r.current.refresh.Some?
      && (!r.force ==> ExpiresSoon(r.current, r.at))
  }

  /** At most one call of a manager is between taking its refresh lock and returning. */
  ghost predicate OneRefreshPerManager(s: System) {
    forall a, b | a in s.calls && b in s.calls && OwnsManager(s.calls[a]) && OwnsManager(s.calls[b])
                  && s.calls[a].manager == s.calls[b].manager :: a == b
  }

  ghost predicate Inv(s: System) {
    && s.history != []
    && LockAgrees(s) && MatchesHold(s) && ReturnsWereStored(s) && SwapsAreEarned(s)
    && RequestsAreDue(s) && OneRefreshPerManager(s)
  }

  function Initial(store: Option<Token>): System {
    System(EMPTY, [store], map[], [], [], [], [])
  }

  lemma {:induction false} InitialInv(store: Option<Token>)
    ensures Inv(Initial(store))
  {
  }

  lemma {:induction false} StoredStays(history: seq<Option<Token>>, more: seq<Option<Token>>, started: nat, t: Token)
    requires StoredSince(history, started, t)
    ensures StoredSince(history + more, started, t)
  {
    var i :| started <= i < |history| && history[i] == Some(t);
    assert (history + more)[i] == Some(t);
  }

  lemma {:induction false} LockActKeepsLockAgrees(s: System, step: Step)
    requires LockAgrees(s) && MayTakeLockStep(s, step)
    ensures LockAgrees(DoLockStep(s, step))
  {
    CarefulStepIsSafe(s.lock, step);
    PhasesHaveCalls(s, step);
    PhasesAndCallsAgree(s, step);
  }

  lemma {:induction false} PhasesHaveCalls(s: System, step: Step)
    requires MayTakeLockStep(s, step) && CarefulInv(s.lock)
    requires forall a | a in s.lock.phases :: a in s.calls && Writes(s.calls[a])
    requires forall a | a in s.calls :: a.pid in s.lock.alive
    ensures forall a | a in DoLockStep(s, step).lock.phases ::
              a in DoLockStep(s, step).calls && Writes(DoLockStep(s, step).calls[a])
    ensures forall a | a in DoLockStep(s, step).calls :: a.pid in DoLockStep(s, step).lock.alive
  {
  }

  lemma {:induction false} PhasesAndCallsAgree(s: System, step: Step)
    requires LockAgrees(s) && MayTakeLockStep(s, step)
    ensures var t := DoLockStep(s, step);
            && (forall a | a in t.calls && !ProgressOf(t.calls[a]).NeedLock? :: IsInside(t.lock, a))
            && (forall a | IsInside(t.lock, a) :: a in t.calls && !ProgressOf(t.calls[a]).NeedLock?)
  {
  }

  lemma {:induction false} LockActKeepsReturns(s: System, step: Step)
    requires s.history != [] && LockAgrees(s) && ReturnsWereStored(s) && MayTakeLockStep(s, step)
    ensures ReturnsWereStored(DoLockStep(s, step))
  {
    var t := DoLockStep(s, step);
    assert t.history == s.history;
    if step.Exit? && t.returned != s.returned {
      var c := s.calls[step.a];
      var token := if c.stage.Saving? then c.stage.token else c.stage.replacement;
      assert t.returned == s.returned + [Returned(token, c.started)];
      assert StoredSince(s.history, c.started, token);
    }
  }

  /** The same call, further on: only its progress or its last stage differs. */
  ghost predicate SameErrand(c: Call, d: Call) {
    && c.manager == d.manager && (OwnsManager(d) ==> OwnsManager(c))
    && (d.stage.Swapping? ==> c.stage.Swapping? && c.stage.used == d.stage.used
                              && c.stage.replacement == d.stage.replacement
                              && (d.stage.progress.Matched? ==> c.stage.progress.Matched?))
  }

  lemma {:induction false} LockActKeepsErrands(s: System, step: Step)
    requires MayTakeLockStep(s, step)
    ensures var t := DoLockStep(s, step);
            && t.history == s.history && t.grants == s.grants && t.swaps == s.swaps && t.sent == s.sent
            && forall a | a in t.calls :: a in s.calls && SameErrand(s.calls[a], t.calls[a])
  {
  }

  lemma {:induction false} LockActKeepsSwaps(s: System, step: Step)
    requires s.history != [] && MatchesHold(s) && SwapsAreEarned(s) && MayTakeLockStep(s, step)
    ensures MatchesHold(DoLockStep(s, step)) && SwapsAreEarned(DoLockStep(s, step))
  {
    LockActKeepsErrands(s, step);
    var t := DoLockStep(s, step);
    forall a | a in t.calls && t.calls[a].stage.Swapping?
      ensures a in s.calls && SameErrand(s.calls[a], t.calls[a])
    {
    }
  }

  lemma {:induction false} LockActKeepsRequests(s: System, step: Step)
    requires s.history != [] && RequestsAreDue(s) && OneRefreshPerManager(s) && MayTakeLockStep(s, step)
    ensures RequestsAreDue(DoLockStep(s, step)) && OneRefreshPerManager(DoLockStep(s, step))
  {
    LockActKeepsErrands(s, step);
    var t := DoLockStep(s, step);
    forall a, b | a in t.calls && b in t.calls && OwnsManager(t.calls[a]) && OwnsManager(t.calls[b])
                  && t.calls[a].manager == t.calls[b].manager
      ensures a == b
    {
      assert SameErrand(s.calls[a], t.calls[a]) && SameErrand(s.calls[b], t.calls[b]);
    }
  }

  lemma {:induction false} LockActKeepsInv(s: System, step: Step)
    requires Inv(s) && MayTakeLockStep(s, step)
    ensures Inv(DoLockStep(s, step))
  {
    LockActKeepsErrands(s, step);
    LockActKeepsLockAgrees(s, step);
    LockActKeepsReturns(s, step);
    LockActKeepsSwaps(s, step);
    LockActKeepsRequests(s, step);
  }

  predicate IsCallAct(act: Act) { !act.LockAct? && !act.Write? }

  lemma {:induction false} CallActKeepsLockAgrees(s: System, act: Act)
    requires s.history != [] && LockAgrees(s) && May(s, act) && !act.LockAct?
    ensures LockAgrees(Do(s, act))
  {
    CallActIsLocal(s, act);
    var t, a := Do(s, act), act.a;
    assert a in s.lock.phases ==> a in s.calls && Writes(s.calls[a]);
    assert a in t.calls ==> a.pid in s.lock.alive;
  }

  /** An act of a call touches nothing but that call, and changes its standing with the lock only from inside. */
  lemma {:induction false} CallActIsLocal(s: System, act: Act)
    requires s.history != [] && May(s, act) && !act.LockAct?
    ensures var t := Do(s, act);
            && t.lock == s.lock
            && (forall b | b != act.a ::
                  (b in t.calls <==> b in s.calls) && (b in t.calls ==> t.calls[b] == s.calls[b]))
            && (act.a in s.calls && Writes(s.calls[act.a]) ==>
                  act.a in t.calls && Writes(t.calls[act.a]) && !ProgressOf(s.calls[act.a]).NeedLock?
                  && !ProgressOf(t.calls[act.a]).NeedLock?
                  && (t.calls[act.a].stage.Saving? ==>
                        s.calls[act.a].stage.Saving? && t.calls[act.a].stage.progress != Done(false)))
            && (act.a in t.calls && !(act.a in s.calls && Writes(s.calls[act.a])) ==>
                  ProgressOf(t.calls[act.a]).NeedLock?)
  {
  }

  lemma {:induction false} CallActKeepsReturns(s: System, act: Act)
    requires s.history != [] && ReturnsWereStored(s) && May(s, act) && IsCallAct(act)
    ensures ReturnsWereStored(Do(s, act))
  {
    var t := Do(s, act);
    assert t.history == s.history;
    var started := if act.a in s.calls then s.calls[act.a].started else |s.history| - 1;
    if Store(s).Some? {
      assert s.history[|s.history| - 1] == Some(Store(s).value);
      assert StoredSince(s.history, started, Store(s).value);
    }
    assert t.returned == s.returned
           || (Store(s).Some? && t.returned == s.returned + [Returned(Store(s).value, started)]);
  }

  lemma {:induction false} CallActKeepsSwaps(s: System, act: Act)
    requires s.history != [] && MatchesHold(s) && SwapsAreEarned(s) && May(s, act) && IsCallAct(act)
    ensures Do(s, act).history == s.history && MatchesHold(Do(s, act)) && SwapsAreEarned(Do(s, act))
  {
    var t := Do(s, act);
    assert t.swaps == s.swaps;
    assert forall g | g in s.grants :: g in t.grants;
  }

  lemma {:induction false} CallActKeepsRequests(s: System, act: Act)
    requires s.history != [] && RequestsAreDue(s) && OneRefreshPerManager(s) && May(s, act) && IsCallAct(act)
    ensures RequestsAreDue(Do(s, act)) && OneRefreshPerManager(Do(s, act))
  {
  }

  lemma {:induction false} CallActKeepsInv(s: System, act: Act)
    requires Inv(s) && May(s, act) && IsCallAct(act)
    ensures Inv(Do(s, act))
  {
    CallActKeepsLockAgrees(s, act);
    CallActKeepsReturns(s, act);
    CallActKeepsSwaps(s, act);
    CallActKeepsRequests(s, act);
  }

  lemma {:induction false} WriteKeepsReturns(s: System, a: Actor)
    requires s.history != [] && ReturnsWereStored(s) && May(s, Write(a))
    ensures ReturnsWereStored(Do(s, Write(a)))
  {
    var t := Do(s, Write(a));
    var last := [Store(t)];
    assert t.history == s.history + last && t.returned == s.returned;
    forall i | 0 <= i < |s.returned|
      ensures StoredSince(t.history, s.returned[i].started, s.returned[i].token)
    {
      StoredStays(s.history, last, s.returned[i].started, s.returned[i].token);
    }
    forall b | b in s.calls && b != a && Writes(s.calls[b]) && ProgressOf(s.calls[b]) == Done(true)
      ensures var token := if s.calls[b].stage.Saving? then s.calls[b].stage.token else s.calls[b].stage.replacement;
              StoredSince(t.history, s.calls[b].started, token)
    {
      var token := if s.calls[b].stage.Saving? then s.calls[b].stage.token else s.calls[b].stage.replacement;
      StoredStays(s.history, last, s.calls[b].started, token);
    }
    assert t.history[|t.history| - 1] == Store(t);
  }

  lemma {:induction false} WriteKeepsInv(s: System, a: Actor)
    requires Inv(s) && May(s, Write(a))
    ensures Inv(Do(s, Write(a)))
  {
    CallActKeepsLockAgrees(s, Write(a));
    WriteKeepsReturns(s, a);
    WriteKeepsTheRest(s, a);
  }

  lemma {:induction false} WriteKeepsTheRest(s: System, a: Actor)
    requires s.history != [] && LockAgrees(s) && MatchesHold(s) && SwapsAreEarned(s) && RequestsAreDue(s)
    requires OneRefreshPerManager(s) && May(s, Write(a))
    ensures var t := Do(s, Write(a));
            t.history != [] && MatchesHold(t) && SwapsAreEarned(t) && RequestsAreDue(t) && OneRefreshPerManager(t)
  {
    InvIsExclusive(s.lock);
    assert IsInside(s.lock, a);
    assert forall b | b in s.calls && b != a :: ProgressOf(s.calls[b]).NeedLock?;
  }

  lemma {:induction false} ActKeepsInv(s: System, act: Act)
    requires Inv(s) && May(s, act)
    ensures Inv(Do(s, act))
  {
    match act {
      case LockAct(step) => LockActKeepsInv(s, step);
      case Write(a) => WriteKeepsInv(s, a);
      case _ => CallActKeepsInv(s, act);
    }
  }

  ghost predicate CanDo(s: System, acts: seq<Act>)
    decreases |acts|
  {
    s.history != [] && (acts == [] || (May(s, acts[0]) && CanDo(Do(s, acts[0]), acts[1..])))
  }

  ghost function AfterActs(s: System, acts: seq<Act>): System
    requires CanDo(s, acts)
    decreases |acts|
  {
    if acts == [] then s else AfterActs(Do(s, acts[0]), acts[1..])
  }

  /** Every interleaving of loads, refreshes, swaps, saves, crashes and lock steps keeps all of the above. */
  lemma {:induction false} RunsKeepInv(s: System, acts: seq<Act>)
    requires Inv(s) && CanDo(s, acts)
    ensures Inv(AfterActs(s, acts))
    decreases |acts|
  {
    if acts != [] {
      ActKeepsInv(s, acts[0]);
      RunsKeepInv(Do(s, acts[0]), acts[1..]);
    }
  }

  // ---------- what the invariants say of whole runs ----------

  /**
   No lost refresh, across processes: each successful swap put in place of a token the replacement that was granted
   for that token's own refresh token, and every token a call returned was in the store while the call ran.
   */
  lemma {:induction false} NoRefreshIsLost(store: Option<Token>, acts: seq<Act>)
    requires CanDo(Initial(store), acts)
    ensures var s := AfterActs(Initial(store), acts);
            && (forall i | 0 <= i < |s.swaps| ::
                  RefreshOf(s.swaps[i].before) == Some(s.swaps[i].used)
                  && Grant(s.swaps[i].used, s.swaps[i].installed) in s.grants)
            && (forall i | 0 <= i < |s.returned| ::
                  StoredSince(s.history, s.returned[i].started, s.returned[i].token))
            && Exclusive(s.lock)
  {
    InitialInv(store);
    RunsKeepInv(Initial(store), acts);
    InvIsExclusive(AfterActs(Initial(store), acts).lock);
  }

  /** A store that has a usable refresh token, and in-flight work that will not lose it. */
  ghost predicate Renewable(s: System) {
    && s.history != []
    && HasRefresh(Store(s))
    && (forall a | a in s.calls :: !s.calls[a].stage.Saving?)
    && (forall a | a in s.calls && s.calls[a].stage.Asking? :: HasRefresh(Some(s.calls[a].stage.current)))
    && (forall a | a in s.calls && s.calls[a].stage.Swapping? :: HasRefresh(Some(s.calls[a].stage.replacement)))
  }

  predicate HasRefresh(t: Option<Token>) { RefreshOf(t).Some? && RefreshOf(t) != Some("") }

  lemma {:induction false} GrantKeepsRefresh(p: Payload, current: Token, now: real)
    requires HasRefresh(Some(current))
    ensures FromTokenResponse(p, current.refresh, now).Some? ==>
              HasRefresh(FromTokenResponse(p, current.refresh, now))
    ensures p.access.Some? ==>
              FromTokenResponse(p, current.refresh, now).value.refresh ==
                if p.refresh != "" then Some(p.refresh) else current.refresh
  {
  }

  lemma {:induction false} RenewableLockStep(s: System, step: Step)
    requires Renewable(s) && MayTakeLockStep(s, step)
    ensures Renewable(DoLockStep(s, step))
  {
  }

  lemma {:induction false} RenewableStep(s: System, act: Act)
    requires Renewable(s) && May(s, act) && !act.Exchange?
    ensures Renewable(Do(s, act))
  {
    match act {
      case LockAct(step) => RenewableLockStep(s, step);
      case Reply(a, Some(payload)) => GrantKeepsRefresh(payload, s.calls[a].stage.current, s.lock.clock);
      case _ =>
    }
  }

  /** Runs made of refreshes only never lose the ability to refresh. */
  lemma {:induction false} RefreshTokenSurvives(s: System, acts: seq<Act>)
    requires Renewable(s) && CanDo(s, acts)
    requires forall i | 0 <= i < |acts| :: !acts[i].Exchange?
    ensures Renewable(AfterActs(s, acts))
    decreases |acts|
  {
    if acts != [] {
      RenewableStep(s, acts[0]);
      assert forall i | 0 <= i < |acts| - 1 :: acts[1..][i] == acts[i + 1];
      RefreshTokenSurvives(Do(s, acts[0]), acts[1..]);
    }
  }

  /** A call that has swapped `t` in and is still on its way out of the lock. */
  predicate HasStored(c: Call, t: Token) {
    c.stage.Swapping? && c.stage.progress == Done(true) && c.stage.replacement == t
  }

  /** A call that waits, and does not insist on a new token. */
  predicate IsWaiting(c: Call) {
    !c.force && (c.stage.Queued? || c.stage.Holding?)
  }

  /** A fresh token in the store, and no calls but waiting ones and the one that has stored it. */
  ghost predicate Served(s: System, t: Token) {
    && s.history != [] && LockAgrees(s)
    && Store(s) == Some(t) && t.refresh.Some? && !ExpiresSoon(t, s.lock.clock)
    && forall a | a in s.calls :: IsWaiting(s.calls[a]) || HasStored(s.calls[a], t)
  }

  /** Acts of plain `get_access_token` calls, while the token is still outside the margin. */
  predicate Plain(act: Act, t: Token) {
    !act.Force? && !act.Exchange? && (act.LockAct? && act.step.Tick? ==> !ExpiresSoon(t, act.step.to))
  }

  /** Nothing was sent or stored, and the calls that returned got `t`. */
  ghost predicate OnlyReturns(s: System, u: System, t: Token) {
    && u.sent == s.sent && u.history == s.history && s.returned <= u.returned
    && forall i | |s.returned| <= i < |u.returned| :: u.returned[i].token == t
  }

  lemma {:induction false} ServedLockStep(s: System, t: Token, step: Step)
    requires Served(s, t) && MayTakeLockStep(s, step) && Plain(LockAct(step), t)
    ensures Served(DoLockStep(s, step), t) && OnlyReturns(s, DoLockStep(s, step), t)
  {
    LockActKeepsLockAgrees(s, step);
    var u := DoLockStep(s, step);
    assert forall a | a in s.lock.phases :: IsInside(s.lock, a) by {
      WritersAreInside(s, t);
    }
    assert u.history == s.history && u.sent == s.sent;
    assert step.Exit? ==> u.returned == s.returned + [Returned(t, s.calls[step.a].started)];
  }

  lemma {:induction false} WritersAreInside(s: System, t: Token)
    requires Served(s, t)
    ensures forall a | a in s.lock.phases :: IsInside(s.lock, a) && HasStored(s.calls[a], t)
  {
    forall a | a in s.lock.phases
      ensures IsInside(s.lock, a) && HasStored(s.calls[a], t)
    {
      assert Writes(s.calls[a]);
    }
  }

  lemma {:induction false} ServedCallAct(s: System, t: Token, act: Act)
    requires Served(s, t) && May(s, act) && Plain(act, t) && !act.LockAct?
    ensures Served(Do(s, act), t) && OnlyReturns(s, Do(s, act), t)
  {
    CallActKeepsLockAgrees(s, act);
    if act.Get? {
      assert Do(s, act).returned == s.returned + [Returned(t, |s.history| - 1)];
    } else if act.Load? {
      assert Do(s, act).returned == s.returned + [Returned(t, s.calls[act.a].started)];
    }
  }

  /** Once a token with enough life is stored, every waiting or new call that returns gets it; nothing is sent. */
  lemma {:induction false} StoredServesAll(s: System, t: Token, acts: seq<Act>)
    requires Served(s, t) && CanDo(s, acts) && forall i | 0 <= i < |acts| :: Plain(acts[i], t)
    ensures OnlyReturns(s, AfterActs(s, acts), t)
    decreases |acts|
  {
    if acts != [] {
      var next := Do(s, acts[0]);
      if acts[0].LockAct? {
        ServedLockStep(s, t, acts[0].step);
      } else {
        ServedCallAct(s, t, acts[0]);
      }
      assert forall i | 0 <= i < |acts| - 1 :: acts[1..][i] == acts[i + 1];
      StoredServesAll(next, t, acts[1..]);
    }
  }

  /**
   Beside the call that is about to store its replacement there are only calls that wait, of any manager, and other
   unforced ones of its own manager, which cannot but wait as well.
   */
  ghost predicate IsOnlyRefresh(s: System, a: Actor)
    requires a in s.calls
  {
    forall b | b in s.calls && b != a ::
      || IsWaiting(s.calls[b])
      || (!s.calls[b].force && !s.calls[b].stage.Saving? && s.calls[b].manager == s.calls[a].manager)
  }

  lemma {:induction false} WriteReachesServed(s: System, a: Actor)
    requires Inv(s) && May(s, Write(a)) && s.calls[a].stage.Swapping? && IsOnlyRefresh(s, a)
    requires var t := s.calls[a].stage.replacement; t.refresh.Some? && !ExpiresSoon(t, s.lock.clock)
    ensures Served(Do(s, Write(a)), s.calls[a].stage.replacement)
  {
    CallActKeepsLockAgrees(s, Write(a));
    forall b | b in s.calls && b != a
      ensures IsWaiting(s.calls[b])
    {
      assert OwnsManager(s.calls[a]);
    }
  }

  /**
   One refresh serves all waiters: from the moment it stores a token with enough life, the refreshing call itself,
   all calls of its manager that wait and all new ones get that token when they return, and no further request is
   sent.
   */
  lemma {:induction false} OneRefreshServesAll(s: System, a: Actor, acts: seq<Act>)
    requires Inv(s) && May(s, Write(a)) && s.calls[a].stage.Swapping? && IsOnlyRefresh(s, a)
    requires var t := s.calls[a].stage.replacement;
             t.refresh.Some? && !ExpiresSoon(t, s.lock.clock) && forall i | 0 <= i < |acts| :: Plain(acts[i], t)
    requires CanDo(Do(s, Write(a)), acts)
    ensures OnlyReturns(Do(s, Write(a)), AfterActs(Do(s, Write(a)), acts), s.calls[a].stage.replacement)
  {
    WriteReachesServed(s, a);
    StoredServesAll(Do(s, Write(a)), s.calls[a].stage.replacement, acts);
  }
}
