/**
 The lock file that serialises writers of the token store, as steps of any number of threads in any number of
 processes over one file system, with crashes.  Judging a lock stale and renaming it away are separate steps here,
 as they are in the source; the module states exactly when that is safe.
 */
module TokenLock {
  import opened Reals
  import opened Text

  const STALE_SECONDS := 1.0

  /** A thread of a process. */
  datatype Actor = Actor(pid: nat, thread: nat)

  /** Where a live actor is in the protocol; an actor without a phase is outside. */
  datatype Phase =
    | Waiting
    | Judged(verdict: Option<nat>)   // decided that this file, or a vanished one, is stale; about to rename
    | Created(file: nat)             // has created the file, has not written its pid yet
    | Inside(file: nat)

  /** `pid` is the content, absent until written; `owner` is the actor that created the file. */
  datatype File = File(id: nat, owner: Actor, pid: Option<nat>, modified: real)

  datatype Lock = Lock(file: Option<File>, phases: map<Actor, Phase>, alive: set<nat>, clock: real, nextId: nat)

  datatype Step =
    | Start(pid: nat)
    | Crash(pid: nat)
    | Tick(to: real)
    | Begin(a: Actor)
    | Create(a: Actor)
    | WritePid(a: Actor)
    | WriteFails(a: Actor)
    | Judge(a: Actor)
    | Rename(a: Actor)
    | GiveUp(a: Actor)
    | Exit(a: Actor)

  const EMPTY := Lock(None, map[], {}, 0.0, 0)

  predicate In(s: Lock, a: Actor, p: Phase) { a in s.phases && s.phases[a] == p }

  /** Between creating the file and leaving the critical section. */
  predicate Holds(s: Lock, a: Actor) {
    a in s.phases && (s.phases[a].Created? || s.phases[a].Inside?)
  }

  predicate IsInside(s: Lock, a: Actor) { a in s.phases && s.phases[a].Inside? }

  /** The staleness test: a pid that is not running, or no readable pid for too long. */
  predicate IsStale(s: Lock, f: File) {
    match f.pid
    case Some(pid) => pid !in s.alive
    case None => s.clock - f.modified >= STALE_SECONDS
  }

  predicate Enabled(s: Lock, step: Step) {
    match step
    case Start(pid) => pid !in s.alive
    case Crash(pid) => pid in s.alive
    case Tick(to) => to >= s.clock
    case Begin(a) => a.pid in s.alive && a !in s.phases
    case Create(a) => In(s, a, Waiting) && s.file.None?
    case WritePid(a) => a in s.phases && s.phases[a].Created?
    case WriteFails(a) => a in s.phases && s.phases[a].Created?
    case Judge(a) => In(s, a, Waiting) && (s.file.Some? ==> IsStale(s, s.file.value))
    case Rename(a) => a in s.phases && s.phases[a].Judged?
    case GiveUp(a) => In(s, a, Waiting)
    case Exit(a) => IsInside(s, a)
  }

  function Move(s: Lock, a: Actor, p: Phase): Lock { s.(phases := s.phases[a := p]) }

  function Leave(s: Lock, a: Actor): Lock { s.(phases := s.phases - {a}) }

  function Apply(s: Lock, step: Step): Lock
    requires Enabled(s, step)
  {
    match step
    case Start(pid) => s.(alive := s.alive + {pid})
    case Crash(pid) =>
      s.(alive := s.alive - {pid}, phases := map a | a in s.phases && a.pid != pid :: s.phases[a])
    case Tick(to) => s.(clock := to)
    case Begin(a) => Move(s, a, Waiting)
    case Create(a) =>
      Move(s.(file := Some(File(s.nextId, a, None, s.clock)), nextId := s.nextId + 1), a, Created(s.nextId))
    case WritePid(a) =>
      var f := s.phases[a].file;
      // written through the descriptor: the file at the path only if it is still the one that was created
      var file := if s.file.Some? && s.file.value.id == f
                  then Some(s.file.value.(pid := Some(a.pid), modified := s.clock)) else s.file;
      Move(s.(file := file), a, Inside(f))
    case WriteFails(a) => Leave(s, a)
    case Judge(a) => Move(s, a, Judged(if s.file.Some? then Some(s.file.value.id) else None))
    case Rename(a) => Move(s.(file := None), a, Waiting)
    case GiveUp(a) => Leave(s, a)
    case Exit(a) => Leave(s.(file := None), a)
  }

  ghost predicate CanRun(s: Lock, steps: seq<Step>)
    decreases |steps|
  {
    steps == [] || (Enabled(s, steps[0]) && CanRun(Apply(s, steps[0]), steps[1..]))
  }

  ghost function After(s: Lock, steps: seq<Step>): Lock
    requires CanRun(s, steps)
    decreases |steps|
  {
    if steps == [] then s else After(Apply(s, steps[0]), steps[1..])
  }

  // ---------- safety ----------

  /** Whoever holds the lock created the file that is now at the path, and the file says so. */
  ghost predicate Inv(s: Lock) {
    && (forall a | a in s.phases :: a.pid in s.alive)
    && (forall a | a in s.phases && s.phases[a].Created? ::
          s.file.Some? && s.file.value.id == s.phases[a].file && s.file.value.owner == a && s.file.value.pid == None)
    && (forall a | a in s.phases && s.phases[a].Inside? ::
          s.file.Some? && s.file.value.id == s.phases[a].file && s.file.value.owner == a
          && s.file.value.pid == Some(a.pid))
    && (s.file.Some? ==> s.file.value.id < s.nextId)
  }

  ghost predicate Exclusive(s: Lock) {
    forall a, b | IsInside(s, a) && IsInside(s, b) :: a == b
  }

  lemma {:induction false} InvIsExclusive(s: Lock)
    requires Inv(s)
    ensures Exclusive(s)
    ensures forall a, b | Holds(s, a) && Holds(s, b) :: a == b
    ensures s.file.Some? ==> forall a | Holds(s, a) :: a == s.file.value.owner
  {
  }

  /** The rename takes away the file of a live actor that holds the lock. */
  predicate Misfire(s: Lock, step: Step) {
    step.Rename? && s.file.Some? && Holds(s, s.file.value.owner)
  }

  lemma {:induction false} StepKeepsInv(s: Lock, step: Step)
    requires Inv(s) && Enabled(s, step) && !Misfire(s, step)
    ensures Inv(Apply(s, step))
  {
    InvIsExclusive(s);
  }

  /** Leaving the critical section removes the leaver's own file and nobody else's. */
  lemma {:induction false} ExitRemovesOwnFile(s: Lock, a: Actor)
    requires Inv(s) && Enabled(s, Exit(a))
    ensures s.file.Some? && s.file.value.owner == a && s.file.value.pid == Some(a.pid)
    ensures Apply(s, Exit(a)).file.None?
  {
  }

  ghost predicate NoMisfire(s: Lock, steps: seq<Step>)
    requires CanRun(s, steps)
    decreases |steps|
  {
    steps == [] || (!Misfire(s, steps[0]) && NoMisfire(Apply(s, steps[0]), steps[1..]))
  }

  /** In every run without a misfire, of any number of processes and with any crashes, the lock excludes. */
  lemma {:induction false} RunsExclude(s: Lock, steps: seq<Step>)
    requires Inv(s) && CanRun(s, steps) && NoMisfire(s, steps)
    ensures Inv(After(s, steps)) && Exclusive(After(s, steps))
    decreases |steps|
  {
    if steps == [] {
      InvIsExclusive(s);
    } else {
      StepKeepsInv(s, steps[0]);
      RunsExclude(Apply(s, steps[0]), steps[1..]);
    }
  }

  /** Every continuation in which no further rename hits a live holder's file excludes. */
  ghost predicate StaysExclusive(s: Lock) {
    forall steps | CanRun(s, steps) && NoMisfire(s, steps) :: Exclusive(After(s, steps))
  }

  /** After a misfire the thief can walk into the critical section beside the robbed holder. */
  lemma {:induction false} MisfireLetsTwoIn(s: Lock, thief: Actor)
    requires Inv(s) && Enabled(s, Rename(thief)) && Misfire(s, Rename(thief))
    ensures !StaysExclusive(Apply(s, Rename(thief)))
  {
    var holder := s.file.value.owner;
    var s0 := Apply(s, Rename(thief));
    var s1 := Apply(s0, Create(thief));
    var s2 := Apply(s1, WritePid(thief));
    assert IsInside(s2, thief) && Holds(s2, holder) && holder != thief;
    var late: seq<Step> := if s2.phases[holder].Created? then [WritePid(holder)] else [];
    if late != [] {
      RunCons(s2, WritePid(holder), []);
      assert [WritePid(holder)] + [] == late;
    }
    RunCons(s1, WritePid(thief), late);
    RunCons(s0, Create(thief), [WritePid(thief)] + late);
    var steps := [Create(thief)] + ([WritePid(thief)] + late);
    assert CanRun(s0, steps) && NoMisfire(s0, steps);
    var last := After(s0, steps);
    assert IsInside(last, thief) && IsInside(last, holder);
  }

  /** One more step in front of a run. */
  lemma {:induction false} RunCons(s: Lock, step: Step, rest: seq<Step>)
    requires Enabled(s, step) && CanRun(Apply(s, step), rest)
    ensures CanRun(s, [step] + rest) && After(s, [step] + rest) == After(Apply(s, step), rest)
    ensures NoMisfire(s, [step] + rest) <==> !Misfire(s, step) && NoMisfire(Apply(s, step), rest)
  {
    assert ([step] + rest)[1..] == rest;
  }

  /**
   Exactly the renames that hit nobody's live lock are safe in themselves.  Later renames have to be safe too: that
   one rename was does not make the lock exclude from then on.
   */
  lemma {:induction false} RenameIsSafeIff(s: Lock, a: Actor)
    requires Inv(s) && Enabled(s, Rename(a))
    ensures StaysExclusive(Apply(s, Rename(a))) <==> !Misfire(s, Rename(a))
  {
    if Misfire(s, Rename(a)) {
      MisfireLetsTwoIn(s, a);
    } else {
      StepKeepsInv(s, Rename(a));
      var t := Apply(s, Rename(a));
      forall steps | CanRun(t, steps) && NoMisfire(t, steps)
        ensures Exclusive(After(t, steps))
      {
        RunsExclude(t, steps);
      }
    }
  }

  /** A crashed process left its lock behind, and two others are waiting for it. */
  const LEFTOVER := Lock(
    Some(File(0, Actor(1, 0), Some(1), 0.0)),
    map[Actor(2, 0) := Waiting, Actor(3, 0) := Waiting],
    {2, 3}, 0.0, 1)

  lemma {:induction false} RunConcat(s: Lock, first: seq<Step>, rest: seq<Step>)
    requires CanRun(s, first) && CanRun(After(s, first), rest)
    ensures CanRun(s, first + rest) && After(s, first + rest) == After(After(s, first), rest)
    decreases |first|
  {
    if first == [] {
      assert first + rest == rest;
    } else {
      RunConcat(Apply(s, first[0]), first[1..], rest);
      assert (first + rest)[1..] == first[1..] + rest;
    }
  }

  lemma {:induction false} RunTwo(s: Lock, a: Step, b: Step)
    requires Enabled(s, a) && Enabled(Apply(s, a), b)
    ensures CanRun(s, [a, b]) && After(s, [a, b]) == Apply(Apply(s, a), b)
  {
    RunCons(Apply(s, a), b, []);
    RunCons(s, a, [b]);
    assert [b] + [] == [b] && [a] + [b] == [a, b];
  }

  lemma {:induction false} RunThree(s: Lock, a: Step, b: Step, c: Step)
    requires Enabled(s, a) && Enabled(Apply(s, a), b) && Enabled(Apply(Apply(s, a), b), c)
    ensures CanRun(s, [a, b, c]) && After(s, [a, b, c]) == Apply(Apply(Apply(s, a), b), c)
  {
    RunTwo(Apply(s, a), b, c);
    RunCons(s, a, [b, c]);
    assert [a] + [b, c] == [a, b, c];
  }

  const STARTED := Lock(None, map[], {1, 2, 3}, 0.0, 0)

  const HELD := Lock(LEFTOVER.file, map[Actor(1, 0) := Inside(0)], {1, 2, 3}, 0.0, 1)

  lemma {:induction false} ProcessesStart()
    ensures CanRun(EMPTY, [Start(1), Start(2), Start(3)]) && After(EMPTY, [Start(1), Start(2), Start(3)]) == STARTED
  {
    RunThree(EMPTY, Start(1), Start(2), Start(3));
    assert {} + {1} + {2} + {3} == {1, 2, 3};
  }

  lemma {:induction false} FirstEnters()
    ensures var steps := [Begin(Actor(1, 0)), Create(Actor(1, 0)), WritePid(Actor(1, 0))];
            CanRun(STARTED, steps) && After(STARTED, steps) == HELD
  {
    RunThree(STARTED, Begin(Actor(1, 0)), Create(Actor(1, 0)), WritePid(Actor(1, 0)));
  }

  lemma {:induction false} HolderCrashes()
    ensures var steps := [Crash(1), Begin(Actor(2, 0)), Begin(Actor(3, 0))];
            CanRun(HELD, steps) && After(HELD, steps) == LEFTOVER
  {
    var crashed := Apply(HELD, Crash(1));
    assert crashed == Lock(LEFTOVER.file, map[], {2, 3}, 0.0, 1);
    RunThree(HELD, Crash(1), Begin(Actor(2, 0)), Begin(Actor(3, 0)));
  }

  /** The leftover lock arises when a process crashes inside. */
  lemma {:induction false} LeftoverIsReachable() returns (steps: seq<Step>)
    ensures CanRun(EMPTY, steps) && After(EMPTY, steps) == LEFTOVER
  {
    var enter := [Begin(Actor(1, 0)), Create(Actor(1, 0)), WritePid(Actor(1, 0))];
    var crash := [Crash(1), Begin(Actor(2, 0)), Begin(Actor(3, 0))];
    steps := [Start(1), Start(2), Start(3)];
    ProcessesStart();
    FirstEnters();
    RunConcat(EMPTY, steps, enter);
    HolderCrashes();
    RunConcat(EMPTY, steps + enter, crash);
    steps := steps + enter + crash;
  }

  /** Both waiters have judged the leftover stale, and the first has renamed it away. */
  const FIRST_STOLEN := Lock(
    None,
    map[Actor(2, 0) := Waiting, Actor(3, 0) := Judged(Some(0))],
    {2, 3}, 0.0, 1)

  lemma {:induction false} FirstSteals()
    ensures var b, c := Actor(2, 0), Actor(3, 0);
            && CanRun(LEFTOVER, [Judge(b), Judge(c)]) && Enabled(After(LEFTOVER, [Judge(b), Judge(c)]), Rename(b))
            && !Misfire(After(LEFTOVER, [Judge(b), Judge(c)]), Rename(b))
            && Apply(After(LEFTOVER, [Judge(b), Judge(c)]), Rename(b)) == FIRST_STOLEN
  {
    RunTwo(LEFTOVER, Judge(Actor(2, 0)), Judge(Actor(3, 0)));
  }

  /** From there the first enters, and the second renames the first one's lock and enters as well. */
  lemma {:induction false} SecondSteals() returns (steps: seq<Step>)
    ensures CanRun(FIRST_STOLEN, steps) && !Exclusive(After(FIRST_STOLEN, steps))
  {
    var b, c := Actor(2, 0), Actor(3, 0);
    RunTwo(FIRST_STOLEN, Create(b), WritePid(b));
    var s := After(FIRST_STOLEN, [Create(b), WritePid(b)]);
    RunThree(s, Rename(c), Create(c), WritePid(c));
    RunConcat(FIRST_STOLEN, [Create(b), WritePid(b)], [Rename(c), Create(c), WritePid(c)]);
    steps := [Create(b), WritePid(b)] + [Rename(c), Create(c), WritePid(c)];
    assert IsInside(After(FIRST_STOLEN, steps), b) && IsInside(After(FIRST_STOLEN, steps), c);
  }

  /** A run from the empty system in which exclusion fails: both waiters steal in turn and both get in. */
  lemma {:induction false} DoubleSteal() returns (steps: seq<Step>)
    ensures CanRun(EMPTY, steps) && !Exclusive(After(EMPTY, steps))
  {
    var b, c := Actor(2, 0), Actor(3, 0);
    steps := LeftoverIsReachable();
    FirstSteals();
    RunThree(LEFTOVER, Judge(b), Judge(c), Rename(b));
    RunTwo(LEFTOVER, Judge(b), Judge(c));
    RunConcat(EMPTY, steps, [Judge(b), Judge(c), Rename(b)]);
    steps := steps + [Judge(b), Judge(c), Rename(b)];
    var rest := SecondSteals();
    RunConcat(EMPTY, steps, rest);
    steps := steps + rest;
  }

  /** No rename alone makes the lock safe: after one that hit nobody's lock, a continuation still lets two in. */
  lemma {:induction false} SafeRenameIsNotEnough() returns (s: Lock, a: Actor, steps: seq<Step>)
    ensures Inv(s) && Enabled(s, Rename(a)) && !Misfire(s, Rename(a))
    ensures CanRun(Apply(s, Rename(a)), steps) && !Exclusive(After(Apply(s, Rename(a)), steps))
  {
    FirstSteals();
    s, a := After(LEFTOVER, [Judge(Actor(2, 0)), Judge(Actor(3, 0))]), Actor(2, 0);
    RunTwo(LEFTOVER, Judge(Actor(2, 0)), Judge(Actor(3, 0)));
    steps := SecondSteals();
  }

  // ---------- what keeps the renames safe ----------

  /**
   The two assumptions about timing: a rename removes the very file that was judged (or none), and no live creator
   lets the stale window pass before its pid is written.
   */
  predicate Careful(s: Lock, step: Step) {
    match step
    case Rename(a) =>
      a in s.phases && s.phases[a].Judged? && (s.file.Some? ==> s.phases[a].verdict == Some(s.file.value.id))
    case Tick(to) =>
      s.file.Some? && Holds(s, s.file.value.owner) && s.phases[s.file.value.owner].Created? ==>
        to - s.file.value.modified < STALE_SECONDS
    case _ => true
  }

  /** No live actor holds a file that was judged stale, and creators are in time. */
  ghost predicate CarefulInv(s: Lock) {
    && Inv(s)
    && (forall a, b | a in s.phases && s.phases[a].Judged? && s.phases[a].verdict.Some? && Holds(s, b) ::
          s.phases[b].file != s.phases[a].verdict.value)
    && (forall a | a in s.phases && s.phases[a].Judged? && s.phases[a].verdict.Some? ::
          s.phases[a].verdict.value < s.nextId)
    && (forall a | a in s.phases && s.phases[a].Created? ::
          s.file.Some? && s.clock - s.file.value.modified < STALE_SECONDS)
  }

  lemma {:induction false} CarefulStepIsSafe(s: Lock, step: Step)
    requires CarefulInv(s) && Enabled(s, step) && Careful(s, step)
    ensures !Misfire(s, step) && CarefulInv(Apply(s, step))
  {
    InvIsExclusive(s);
    assert !Misfire(s, step);
    StepKeepsInv(s, step);
  }

  ghost predicate CarefulRun(s: Lock, steps: seq<Step>)
    requires CanRun(s, steps)
    decreases |steps|
  {
    steps == [] || (Careful(s, steps[0]) && CarefulRun(Apply(s, steps[0]), steps[1..]))
  }

  lemma {:induction false} CarefulRunKeeps(s: Lock, steps: seq<Step>)
    requires CarefulInv(s) && CanRun(s, steps) && CarefulRun(s, steps)
    ensures CarefulInv(After(s, steps)) && NoMisfire(s, steps)
    decreases |steps|
  {
    if steps != [] {
      CarefulStepIsSafe(s, steps[0]);
      CarefulRunKeeps(Apply(s, steps[0]), steps[1..]);
    }
  }

  lemma {:induction false} EmptyIsCareful()
    ensures CarefulInv(EMPTY)
  {
  }

  /** Under the two timing assumptions every run from the empty system excludes, and none of its renames misfires. */
  lemma {:induction false} CarefulRunsExclude(steps: seq<Step>)
    requires CanRun(EMPTY, steps) && CarefulRun(EMPTY, steps)
    ensures Exclusive(After(EMPTY, steps)) && NoMisfire(EMPTY, steps)
  {
    EmptyIsCareful();
    CarefulRunKeeps(EMPTY, steps);
    InvIsExclusive(After(EMPTY, steps));
  }

  // ---------- whose file lies at the path ----------

  /** The actor that created the file is still on its way through the lock with it. */
  predicate IsHeld(s: Lock, f: File) {
    f.owner in s.phases && (s.phases[f.owner] == Created(f.id) || s.phases[f.owner] == Inside(f.id))
  }

  /** The step takes the file's owner away from it: its process crashes, or writing its pid fails. */
  predicate Abandons(s: Lock, step: Step, f: File) {
    && s.file.Some? && s.file.value.id == f.id && s.file.value.owner == f.owner
    && (step == Crash(f.owner.pid) || step == WriteFails(f.owner))
  }

  /** Some step of the run abandoned the file while it lay at the path. */
  ghost predicate WasAbandoned(s: Lock, steps: seq<Step>, f: File)
    requires CanRun(s, steps)
  {
    exists i | 0 <= i < |steps| :: AbandonsAt(s, steps, i, f)
  }

  ghost predicate AbandonsAt(s: Lock, steps: seq<Step>, i: nat, f: File)
    requires i < |steps|
  {
    CanRun(s, steps[..i]) && Abandons(After(s, steps[..i]), steps[i], f)
  }

  lemma {:induction false} LastStep(s: Lock, steps: seq<Step>)
    requires CanRun(s, steps) && steps != []
    ensures var n := |steps| - 1;
            && CanRun(s, steps[..n]) && Enabled(After(s, steps[..n]), steps[n])
            && After(s, steps) == Apply(After(s, steps[..n]), steps[n])
    decreases |steps|
  {
    var n := |steps| - 1;
    if n > 0 {
      LastStep(Apply(s, steps[0]), steps[1..]);
      assert steps[1..][..n - 1] == steps[..n][1..];
    }
  }

  /** A file at the path after a step was there before and keeps its holder unless abandoned, or is newly created. */
  lemma {:induction false} FileAfterStep(s: Lock, step: Step)
    requires Enabled(s, step) && Apply(s, step).file.Some?
    ensures var f := Apply(s, step).file.value;
            || IsHeld(Apply(s, step), f)
            || (s.file.Some? && s.file.value.id == f.id && s.file.value.owner == f.owner
                && (IsHeld(s, s.file.value) ==> Abandons(s, step, f)))
  {
  }

  lemma {:induction false} AbandonedStays(s: Lock, steps: seq<Step>, f: File, g: File)
    requires CanRun(s, steps) && steps != [] && CanRun(s, steps[..|steps| - 1])
    requires WasAbandoned(s, steps[..|steps| - 1], f) && g.id == f.id && g.owner == f.owner
    ensures WasAbandoned(s, steps, g)
  {
    var before := steps[..|steps| - 1];
    var i :| 0 <= i < |before| && AbandonsAt(s, before, i, f);
    assert before[..i] == steps[..i];
    assert AbandonsAt(s, steps, i, g);
  }

  /**
   Whose file lies at the path, after any run from the empty system, with or without misfires: it is held by the actor
   that created it, or since its creation that actor's process crashed or its pid could not be written.
   */
  lemma {:induction false} FileIsHeldOrAbandoned(steps: seq<Step>)
    requires CanRun(EMPTY, steps) && After(EMPTY, steps).file.Some?
    ensures var f := After(EMPTY, steps).file.value;
            IsHeld(After(EMPTY, steps), f) || WasAbandoned(EMPTY, steps, f)
    decreases |steps|
  {
    if steps != [] {
      var n := |steps| - 1;
      LastStep(EMPTY, steps);
      var before, s, f := steps[..n], After(EMPTY, steps[..n]), After(EMPTY, steps).file.value;
      FileAfterStep(s, steps[n]);
      if !IsHeld(After(EMPTY, steps), f) {
        FileIsHeldOrAbandoned(before);
        if IsHeld(s, s.file.value) {
          assert AbandonsAt(EMPTY, steps, n, f);
        } else {
          AbandonedStays(EMPTY, steps, s.file.value, f);
        }
      }
    }
  }

  lemma {:induction false} IdsAreFresh(s: Lock, steps: seq<Step>)
    requires CanRun(s, steps) && (s.file.Some? ==> s.file.value.id < s.nextId)
    ensures var t := After(s, steps); t.file.Some? ==> t.file.value.id < t.nextId
    decreases |steps|
  {
    if steps != [] {
      IdsAreFresh(Apply(s, steps[0]), steps[1..]);
    }
  }

  /** The file is past: gone for good, or at the path without its holder. */
  ghost predicate IsPast(s: Lock, f: File) {
    f.id < s.nextId && (s.file.Some? && s.file.value.id == f.id ==> !IsHeld(s, f))
  }

  lemma {:induction false} PastStays(s: Lock, steps: seq<Step>, f: File)
    requires CanRun(s, steps) && IsPast(s, f)
    ensures IsPast(After(s, steps), f)
    decreases |steps|
  {
    if steps != [] {
      PastStays(Apply(s, steps[0]), steps[1..], f);
    }
  }

  /** After any run the file at the path is held exactly if it was never abandoned. */
  lemma {:induction false} FileIsHeldIff(steps: seq<Step>)
    requires CanRun(EMPTY, steps) && After(EMPTY, steps).file.Some?
    ensures var f := After(EMPTY, steps).file.value;
            IsHeld(After(EMPTY, steps), f) <==> !WasAbandoned(EMPTY, steps, f)
  {
    var f := After(EMPTY, steps).file.value;
    FileIsHeldOrAbandoned(steps);
    if i :| 0 <= i < |steps| && AbandonsAt(EMPTY, steps, i, f) {
      RunSplits(EMPTY, steps, i);
      IdsAreFresh(EMPTY, steps[..i]);
      var t, rest := After(EMPTY, steps[..i]), steps[i..];
      PastStays(Apply(t, rest[0]), rest[1..], f);
    }
  }

  /** It belongs to an actor that holds it or to a dead process exactly if it was not abandoned by a live one. */
  lemma {:induction false} FileIsOwnedIff(steps: seq<Step>)
    requires CanRun(EMPTY, steps) && After(EMPTY, steps).file.Some?
    ensures var s := After(EMPTY, steps);
            var f := s.file.value;
            IsHeld(s, f) || f.owner.pid !in s.alive <==> !(WasAbandoned(EMPTY, steps, f) && f.owner.pid in s.alive)
  {
    FileIsHeldIff(steps);
  }

  /** No crashed pid is given to a new process. */
  predicate NoPidReuse(steps: seq<Step>) {
    forall i, j | 0 <= i < j < |steps| && steps[i].Crash? :: steps[j] != Start(steps[i].pid)
  }

  lemma {:induction false} DeadStays(s: Lock, steps: seq<Step>, pid: nat)
    requires CanRun(s, steps) && pid !in s.alive && Start(pid) !in steps
    ensures pid !in After(s, steps).alive
    decreases |steps|
  {
    if steps != [] {
      DeadStays(Apply(s, steps[0]), steps[1..], pid);
    }
  }

  lemma {:induction false} RunSplits(s: Lock, steps: seq<Step>, i: nat)
    requires CanRun(s, steps) && i <= |steps|
    ensures CanRun(s, steps[..i]) && CanRun(After(s, steps[..i]), steps[i..])
    ensures After(s, steps) == After(After(s, steps[..i]), steps[i..])
    decreases i
  {
    if i == 0 {
      assert steps[i..] == steps;
    } else {
      RunSplits(Apply(s, steps[0]), steps[1..], i - 1);
      assert steps[1..][..i - 1] == steps[..i][1..] && steps[1..][i - 1..] == steps[i..];
    }
  }

  /**
   Where every pid is written and none is reused, the file at the path belongs to an actor that holds it or to a dead
   process.
   */
  lemma {:induction false} FileIsHeldOrDead(steps: seq<Step>)
    requires CanRun(EMPTY, steps) && After(EMPTY, steps).file.Some?
    requires (forall i | 0 <= i < |steps| :: !steps[i].WriteFails?) && NoPidReuse(steps)
    ensures var s := After(EMPTY, steps);
            IsHeld(s, s.file.value) || s.file.value.owner.pid !in s.alive
  {
    var s := After(EMPTY, steps);
    var f := s.file.value;
    FileIsHeldOrAbandoned(steps);
    if !IsHeld(s, f) {
      var i :| 0 <= i < |steps| && AbandonsAt(EMPTY, steps, i, f);
      RunSplits(EMPTY, steps, i);
      var t, rest := After(EMPTY, steps[..i]), steps[i..];
      assert rest[0] == Crash(f.owner.pid) && rest[1..] == steps[i + 1..];
      DeadStays(Apply(t, rest[0]), rest[1..], f.owner.pid);
    }
  }

  /** Writing the pid fails and the file stays, with its creator alive and nobody holding it. */
  lemma {:induction false} FailedWriteLeavesFile()
    ensures var steps := [Start(1), Begin(Actor(1, 0))] + [Create(Actor(1, 0)), WriteFails(Actor(1, 0))];
            && CanRun(EMPTY, steps) && CarefulRun(EMPTY, steps)
            && var s := After(EMPTY, steps);
               s.file.Some? && s.file.value.owner.pid in s.alive && s.phases == map[]
  {
    var a := Actor(1, 0);
    var s := Lock(None, map[a := Waiting], {1}, 0.0, 0);
    RunTwo(EMPTY, Start(1), Begin(a));
    assert {} + {1} == {1};
    assert After(EMPTY, [Start(1), Begin(a)]) == s;
    RunTwo(s, Create(a), WriteFails(a));
    RunConcat(EMPTY, [Start(1), Begin(a)], [Create(a), WriteFails(a)]);
    TimelessIsCareful(EMPTY, [Start(1), Begin(a)] + [Create(a), WriteFails(a)]);
  }

  lemma {:induction false} TimelessIsCareful(s: Lock, steps: seq<Step>)
    requires CanRun(s, steps) && forall i | 0 <= i < |steps| :: !steps[i].Tick? && !steps[i].Rename?
    ensures CarefulRun(s, steps)
    decreases |steps|
  {
    if steps != [] {
      TimelessIsCareful(Apply(s, steps[0]), steps[1..]);
    }
  }

  lemma {:induction false} CarefulConcat(s: Lock, first: seq<Step>, rest: seq<Step>)
    requires CanRun(s, first) && CarefulRun(s, first)
    requires CanRun(After(s, first), rest) && CarefulRun(After(s, first), rest)
    ensures CanRun(s, first + rest) && CarefulRun(s, first + rest)
    decreases |first|
  {
    if first == [] {
      assert first + rest == rest;
    } else {
      CarefulConcat(Apply(s, first[0]), first[1..], rest);
      assert (first + rest)[1..] == first[1..] + rest;
    }
  }

  // ---------- a lock that nobody holds can be taken ----------

  /**
   Recovery: a file that its creator does not hold, with no pid in it or that of a dead process, does not block.  Once
   the stale window has passed any waiting actor can take the lock, by careful steps.
   */
  lemma {:induction false} AbandonedLockCanBeTaken(s: Lock, a: Actor) returns (steps: seq<Step>)
    requires s.file.Some? && !Holds(s, s.file.value.owner) && In(s, a, Waiting)
    requires s.file.value.pid.None? || s.file.value.pid.value !in s.alive
    ensures CanRun(s, steps) && CarefulRun(s, steps) && IsInside(After(s, steps), a)
  {
    var f := s.file.value;
    var to := Max(s.clock, f.modified + STALE_SECONDS);
    var late := Apply(s, Tick(to));
    var judged := Apply(late, Judge(a));
    var free := Apply(judged, Rename(a));
    RunThree(s, Tick(to), Judge(a), Rename(a));
    RunTwo(free, Create(a), WritePid(a));
    RunConcat(s, [Tick(to), Judge(a), Rename(a)], [Create(a), WritePid(a)]);
    steps := [Tick(to), Judge(a), Rename(a)] + [Create(a), WritePid(a)];
    TimelessIsCareful(free, [Create(a), WritePid(a)]);
    var steal := [Tick(to), Judge(a), Rename(a)];
    assert steal[1..] == [Judge(a), Rename(a)] && steal[1..][1..] == [Rename(a)];
    assert CarefulRun(judged, [Rename(a)]);
    CarefulConcat(s, steal, [Create(a), WritePid(a)]);
  }
}
