/**
 Pinning the API specification: which schemas survive when only the v3 paths are kept.  The worklist is proved to
 compute exactly the schemas reachable from the paths.
 */
module SchemaClosure {
  import opened JsonValue

  type Name = seq<int>

  type Fields = map<Name, Value>

  const REF: Name := PointsOf("$ref")
  const SCHEMAS_PREFIX: Name := PointsOf("#/components/schemas/")

  // ---------- references ----------

  /** What follows the last slash. */
  function LastSegment(p: Name): Name {
    if p == [] || p[|p| - 1] == '/' as int then [] else LastSegment(p[..|p| - 1]) + [p[|p| - 1]]
  }

  /** The schema that an object refers to by its own `$ref`, if any. */
  function OwnReference(v: Value): set<Name> {
    if v.Dict? && REF in v.members && v.members[REF].Text? && SCHEMAS_PREFIX <= v.members[REF].points then
      {LastSegment(v.members[REF].points)}
    else {}
  }

  function References(v: Value): set<Name> {
    OwnReference(v) +
    match v
    case Dict(members) => set k, n | k in members && n in References(members[k]) :: n
    case List(items) => set i, n | 0 <= i < |items| && n in References(items[i]) :: n
    case _ => {}
  }

  datatype Step = Key(name: Name) | Index(i: nat)

  /** The value found by descending through members and items. */
  ghost predicate IsAt(v: Value, path: seq<Step>, inner: Value)
    decreases |path|
  {
    if path == [] then v == inner
    else
      match path[0]
      case Key(k) => v.Dict? && k in v.members && IsAt(v.members[k], path[1..], inner)
      case Index(i) => v.List? && i < |v.items| && IsAt(v.items[i], path[1..], inner)
  }

  ghost predicate Mentions(v: Value, n: Name) {
    exists path, inner :: IsAt(v, path, inner) && n in OwnReference(inner)
  }

  lemma {:induction false} ReferenceIsMentioned(v: Value, n: Name)
    requires n in References(v)
    ensures Mentions(v, n)
    decreases v
  {
    if n in OwnReference(v) {
      assert IsAt(v, [], v);
    } else if v.Dict? {
      var k :| k in v.members && n in References(v.members[k]);
      ReferenceIsMentioned(v.members[k], n);
      var path, inner :| IsAt(v.members[k], path, inner) && n in OwnReference(inner);
      assert ([Key(k)] + path)[1..] == path;
      assert IsAt(v, [Key(k)] + path, inner);
    } else {
      var i :| 0 <= i < |v.items| && n in References(v.items[i]);
      ReferenceIsMentioned(v.items[i], n);
      var path, inner :| IsAt(v.items[i], path, inner) && n in OwnReference(inner);
      assert ([Index(i)] + path)[1..] == path;
      assert IsAt(v, [Index(i)] + path, inner);
    }
  }

  lemma {:induction false} MentionIsReference(v: Value, path: seq<Step>, inner: Value, n: Name)
    requires IsAt(v, path, inner) && n in OwnReference(inner)
    ensures n in References(v)
    decreases |path|
  {
    if path != [] {
      match path[0]
      case Key(k) => MentionIsReference(v.members[k], path[1..], inner, n);
      case Index(i) => MentionIsReference(v.items[i], path[1..], inner, n);
    }
  }

  /** The references of a value are those of the objects at any depth inside it. */
  lemma {:induction false} ReferencesAreMentions(v: Value, n: Name)
    ensures n in References(v) <==> Mentions(v, n)
  {
    if n in References(v) {
      ReferenceIsMentioned(v, n);
    }
    if path, inner :| IsAt(v, path, inner) && n in OwnReference(inner) {
      MentionIsReference(v, path, inner, n);
    }
  }

  lemma {:induction false} LastSegmentOfPlain(head: Name, rest: Name)
    requires head != [] && head[|head| - 1] == '/' as int && '/' as int !in rest
    ensures LastSegment(head + rest) == rest
    decreases |rest|
  {
    if rest == [] {
      assert head + rest == head;
    } else {
      var p := head + rest;
      assert p[..|p| - 1] == head + rest[..|rest| - 1];
      LastSegmentOfPlain(head, rest[..|rest| - 1]);
    }
  }

  lemma {:induction false} LastSegmentHasNoSlash(p: Name)
    ensures '/' as int !in LastSegment(p)
  {
    if p != [] && p[|p| - 1] != '/' as int {
      LastSegmentHasNoSlash(p[..|p| - 1]);
    }
  }

  /** A reference is read as the schema it points to exactly when it does not point inside that schema. */
  lemma {:induction false} ReferenceNamesTargetIff(rest: Name)
    ensures LastSegment(SCHEMAS_PREFIX + rest) == rest <==> '/' as int !in rest
  {
    LastSegmentHasNoSlash(SCHEMAS_PREFIX + rest);
    if '/' as int !in rest {
      LastSegmentOfPlain(SCHEMAS_PREFIX, rest);
    }
  }

  lemma {:induction false} BelowIsWithin(v: Value)
    ensures OwnReference(v) <= References(v)
    ensures v.Dict? ==> forall k | k in v.members :: References(v.members[k]) <= References(v)
    ensures v.List? ==> forall i | 0 <= i < |v.items| :: References(v.items[i]) <= References(v)
  {}

  lemma {:induction false} ItemIsWithin(v: Value, i: nat)
    requires v.List? && i < |v.items|
    ensures References(v.items[i]) <= References(v)
  {}

  /** Nothing else than an object's own reference and those below it. */
  lemma {:induction false} WithinIsBelow(v: Value, references: set<Name>)
    requires OwnReference(v) <= references
    requires v.Dict? ==> forall k | k in v.members :: References(v.members[k]) <= references
    requires v.List? ==> forall i | 0 <= i < |v.items| :: References(v.items[i]) <= references
    ensures References(v) <= references
  {}

  /** Collects the references of a value; the order in which members are visited is left open. */
  method SchemaReferences(v: Value) returns (references: set<Name>)
    ensures references == References(v)
    decreases v, 1
  {
    references := OwnReference(v);
    BelowIsWithin(v);
    if v.Dict? {
      references := DictReferences(v);
    } else if v.List? {
      references := ListReferences(v);
    }
    WithinIsBelow(v, references);
  }

  method DictReferences(v: Value) returns (references: set<Name>)
    requires v.Dict?
    ensures OwnReference(v) <= references <= References(v)
    ensures forall k | k in v.members :: References(v.members[k]) <= references
    decreases v, 0
  {
    references := OwnReference(v);
    BelowIsWithin(v);
    var keys := v.members.Keys;
    while keys != {}
      invariant keys <= v.members.Keys
      invariant OwnReference(v) <= references <= References(v)
      invariant forall k | k in v.members && k !in keys :: References(v.members[k]) <= references
      decreases keys
    {
      var k :| k in keys;
      var below := SchemaReferences(v.members[k]);
      references := references + below;
      keys := keys - {k};
    }
  }

  /** The references of the first `end` items have been collected. */
  ghost predicate Collected(items: seq<Value>, end: nat, references: set<Name>)
    requires end <= |items|
  {
    forall j | 0 <= j < end :: References(items[j]) <= references
  }

  lemma {:induction false} CollectedGrows(
    items: seq<Value>, end: nat, references: set<Name>, below: set<Name>)
    requires end < |items| && Collected(items, end, references) && below == References(items[end])
    ensures Collected(items, end + 1, references + below)
  {}

  method ListReferences(v: Value) returns (references: set<Name>)
    requires v.List?
    ensures OwnReference(v) <= references <= References(v)
    ensures Collected(v.items, |v.items|, references)
    decreases v, 0
  {
    references := OwnReference(v);
    ghost var own, all := OwnReference(v), References(v);
    BelowIsWithin(v);
    var i := 0;
    while i < |v.items|
      invariant i <= |v.items|
      invariant own <= references <= all
      invariant Collected(v.items, i, references)
    {
      var below := SchemaReferences(v.items[i]);
      ItemIsWithin(v, i);
      CollectedGrows(v.items, i, references, below);
      references := references + below;
      i := i + 1;
    }
  }

  // ---------- reachability ----------

  /** Names leading from the paths from schema to schema. */
  ghost predicate IsChain(paths: Fields, schemas: Fields, chain: seq<Name>) {
    && chain != [] && chain[0] in References(Dict(paths))
    && forall i | 0 <= i < |chain| - 1 :: chain[i] in schemas && chain[i + 1] in References(schemas[chain[i]])
  }

  ghost predicate Reachable(paths: Fields, schemas: Fields, n: Name) {
    exists chain :: IsChain(paths, schemas, chain) && chain[|chain| - 1] == n
  }

  /** The defined schemas that the paths reach. */
  ghost function Closure(paths: Fields, schemas: Fields): Fields {
    map n | n in schemas && Reachable(paths, schemas, n) :: schemas[n]
  }

  lemma {:induction false} RootIsReachable(paths: Fields, schemas: Fields, n: Name)
    requires n in References(Dict(paths))
    ensures Reachable(paths, schemas, n)
  {
    assert IsChain(paths, schemas, [n]);
  }

  lemma {:induction false} NextIsReachable(paths: Fields, schemas: Fields, a: Name, b: Name)
    requires Reachable(paths, schemas, a) && a in schemas && b in References(schemas[a])
    ensures Reachable(paths, schemas, b)
  {
    var chain :| IsChain(paths, schemas, chain) && chain[|chain| - 1] == a;
    var longer := chain + [b];
    assert IsChain(paths, schemas, longer) && longer[|longer| - 1] == b;
  }

  /** `done` holds the roots and, with a schema, everything that schema refers to. */
  ghost predicate IsClosed(paths: Fields, schemas: Fields, done: set<Name>) {
    && References(Dict(paths)) <= done
    && forall a | a in done && a in schemas :: References(schemas[a]) <= done
  }

  lemma {:induction false} ClosedHoldsChain(paths: Fields, schemas: Fields, done: set<Name>, chain: seq<Name>)
    requires IsClosed(paths, schemas, done) && IsChain(paths, schemas, chain)
    ensures chain[|chain| - 1] in done
    decreases |chain|
  {
    if |chain| > 1 {
      ClosedHoldsChain(paths, schemas, done, chain[..|chain| - 1]);
    }
  }

  lemma {:induction false} ClosedHoldsReachable(paths: Fields, schemas: Fields, done: set<Name>)
    requires IsClosed(paths, schemas, done)
    ensures forall n | Reachable(paths, schemas, n) :: n in done
  {
    forall n | Reachable(paths, schemas, n)
      ensures n in done
    {
      var chain :| IsChain(paths, schemas, chain) && chain[|chain| - 1] == n;
      ClosedHoldsChain(paths, schemas, done, chain);
    }
  }

  // ---------- the worklist ----------

  method Listed(s: set<Name>) returns (r: seq<Name>)
    ensures forall n :: n in r <==> n in s
  {
    r := [];
    var left := s;
    while left != {}
      invariant left <= s
      invariant forall n :: n in r <==> n in s - left
      decreases |left|
    {
      var n :| n in left;
      r := r + [n];
      left := left - {n};
    }
  }

  /** All names that any schema or path refers to: the names the worklist can ever meet. */
  ghost function AllReferences(paths: Fields, schemas: Fields): set<Name> {
    References(Dict(paths)) + References(Dict(schemas))
  }

  /** Names still to be met come from the graph. */
  ghost predicate Sound(paths: Fields, schemas: Fields, resolved: set<Name>, pending: seq<Name>) {
    forall n | n in resolved || n in pending :: Reachable(paths, schemas, n) && n in AllReferences(paths, schemas)
  }

  /** Whatever the roots and the resolved schemas refer to is resolved or waiting. */
  ghost predicate Covered(paths: Fields, schemas: Fields, resolved: set<Name>, pending: seq<Name>) {
    && (forall n | n in References(Dict(paths)) :: n in resolved || n in pending)
    && forall a, n | a in resolved && a in schemas && n in References(schemas[a]) :: n in resolved || n in pending
  }

  lemma {:induction false} StartIsSound(paths: Fields, schemas: Fields, pending: seq<Name>)
    requires forall n :: n in pending <==> n in References(Dict(paths))
    ensures Sound(paths, schemas, {}, pending) && Covered(paths, schemas, {}, pending)
  {
    forall n | n in pending
      ensures Reachable(paths, schemas, n)
    {
      RootIsReachable(paths, schemas, n);
    }
  }

  lemma {:induction false} NextIsSound(paths: Fields, schemas: Fields, a: Name, n: Name)
    requires Reachable(paths, schemas, a) && a in schemas && n in References(schemas[a])
    ensures Reachable(paths, schemas, n) && n in AllReferences(paths, schemas)
  {
    NextIsReachable(paths, schemas, a, n);
    BelowIsWithin(Dict(schemas));
  }

  /** One turn: `name` leaves the list, and whatever it refers to beyond the resolved names joins it. */
  lemma {:induction false} TurnKeeps(
    paths: Fields, schemas: Fields, resolved: set<Name>, pending: seq<Name>, name: Name, more: seq<Name>)
    requires Sound(paths, schemas, resolved, pending + [name]) && Covered(paths, schemas, resolved, pending + [name])
    requires forall n :: n in more <==> name in schemas && n in References(schemas[name]) && n !in resolved + {name}
    ensures Sound(paths, schemas, resolved + {name}, pending + more)
    ensures Covered(paths, schemas, resolved + {name}, pending + more)
  {
    var all := pending + [name];
    assert all[|pending|] == name;
    forall n | n in more
      ensures Reachable(paths, schemas, n) && n in AllReferences(paths, schemas)
    {
      NextIsSound(paths, schemas, name, n);
    }
    forall n | n in pending
      ensures n in all
    {}
    forall n | n in all
      ensures n in pending || n == name
    {}
    forall n | n in pending + more
      ensures n in pending || n in more
    {}
  }

  lemma {:induction false} SkipKeeps(
    paths: Fields, schemas: Fields, resolved: set<Name>, pending: seq<Name>, name: Name)
    requires Sound(paths, schemas, resolved, pending + [name]) && Covered(paths, schemas, resolved, pending + [name])
    requires name in resolved
    ensures Sound(paths, schemas, resolved, pending) && Covered(paths, schemas, resolved, pending)
  {
    var all := pending + [name];
    forall n | n in pending
      ensures n in all
    {}
    forall n | n in all
      ensures n in pending || n == name
    {}
  }

  lemma {:induction false} ResolvedIsReachable(paths: Fields, schemas: Fields, resolved: set<Name>)
    requires Sound(paths, schemas, resolved, []) && Covered(paths, schemas, resolved, [])
    ensures forall n :: n in resolved <==> Reachable(paths, schemas, n)
  {
    assert IsClosed(paths, schemas, resolved);
    ClosedHoldsReachable(paths, schemas, resolved);
  }

  lemma {:induction false} CollectedIsClosure(paths: Fields, schemas: Fields, resolved: set<Name>)
    requires Sound(paths, schemas, resolved, []) && Covered(paths, schemas, resolved, [])
    ensures (map n | n in resolved && n in schemas :: schemas[n]) == Closure(paths, schemas)
  {
    ResolvedIsReachable(paths, schemas, resolved);
  }

  /** What a newly resolved name adds to the list. */
  method Successors(schemas: Fields, name: Name, resolved: set<Name>) returns (more: seq<Name>)
    ensures forall n :: n in more <==> name in schemas && n in References(schemas[name]) && n !in resolved
  {
    if name !in schemas || schemas[name] == Constant("null") {
      return [];
    }
    var next := SchemaReferences(schemas[name]);
    more := Listed(next - resolved);
  }

  /** What the worklist keeps from turn to turn. */
  ghost predicate IsUnderWay(paths: Fields, schemas: Fields, resolved: set<Name>, pending: seq<Name>) {
    Sound(paths, schemas, resolved, pending) && Covered(paths, schemas, resolved, pending)
  }

  ghost function Unresolved(paths: Fields, schemas: Fields, resolved: set<Name>): set<Name> {
    AllReferences(paths, schemas) - resolved
  }

  /** The name at the end of the list is one of those that can be met. */
  lemma {:induction false} LastIsUnresolved(paths: Fields, schemas: Fields, resolved: set<Name>, pending: seq<Name>)
    requires pending != [] && Sound(paths, schemas, resolved, pending) && pending[|pending| - 1] !in resolved
    ensures Unresolved(paths, schemas, resolved + {pending[|pending| - 1]}) < Unresolved(paths, schemas, resolved)
  {
    var name := pending[|pending| - 1];
    assert name in pending && name in Unresolved(paths, schemas, resolved);
  }

  /** One turn of the worklist: it resolves a new name or shortens the list. */
  method Turn(ghost paths: Fields, schemas: Fields, resolved: set<Name>, pending: seq<Name>)
    returns (nowResolved: set<Name>, nowPending: seq<Name>)
    requires pending != [] && IsUnderWay(paths, schemas, resolved, pending)
    ensures IsUnderWay(paths, schemas, nowResolved, nowPending)
    ensures || Unresolved(paths, schemas, nowResolved) < Unresolved(paths, schemas, resolved)
            || (nowResolved == resolved && |nowPending| < |pending|)
  {
    var name := pending[|pending| - 1];
    var rest := pending[..|pending| - 1];
    assert pending == rest + [name];
    if name in resolved {
      SkipKeeps(paths, schemas, resolved, rest, name);
      return resolved, rest;
    }
    LastIsUnresolved(paths, schemas, resolved, pending);
    var more := Successors(schemas, name, resolved + {name});
    TurnKeeps(paths, schemas, resolved, rest, name, more);
    return resolved + {name}, rest + more;
  }

  /** Ends on any graph, cyclic or not, with exactly the schemas that the paths reach. */
  method ReferencedSchemas(paths: Fields, schemas: Fields) returns (kept: Fields)
    ensures kept == Closure(paths, schemas)
  {
    var referenced := SchemaReferences(Dict(paths));
    var resolved: set<Name> := {};
    var pending := Listed(referenced);
    StartIsSound(paths, schemas, pending);
    while pending != []
      invariant IsUnderWay(paths, schemas, resolved, pending)
      decreases Unresolved(paths, schemas, resolved), |pending|
    {
      resolved, pending := Turn(paths, schemas, resolved, pending);
    }
    CollectedIsClosure(paths, schemas, resolved);
    kept := map n | n in resolved && n in schemas :: schemas[n];
  }
}
