/** The references that a filtered API specification still carries, read off the document before the filter. */
module SpecReferences {
  import opened Text
  import opened JsonValue
  import opened SchemaClosure
  import opened SpecFilter

  // ---------- the references that a value carries ----------

  function OwnText(v: Value): set<Name> {
    if v.Dict? && REF in v.members && v.members[REF].Text? then {v.members[REF].points} else {}
  }

  /** Some object at any depth inside the value has the reference `r`. */
  ghost predicate Carries(v: Value, r: Name) {
    exists path, inner :: IsAt(v, path, inner) && r in OwnText(inner)
  }

  lemma {:induction false} CarriesBelow(v: Value, step: Step, child: Value, r: Name)
    requires Carries(child, r)
    requires match step
             case Key(k) => v.Dict? && k in v.members && child == v.members[k]
             case Index(i) => v.List? && i < |v.items| && child == v.items[i]
    ensures Carries(v, r)
  {
    var path, inner :| IsAt(child, path, inner) && r in OwnText(inner);
    var longer := [step] + path;
    assert longer[1..] == path;
    assert IsAt(v, longer, inner);
  }

  lemma {:induction false} CarriesSplits(v: Value, r: Name)
    requires Carries(v, r) && r !in OwnText(v)
    ensures || (v.Dict? && exists k :: k in v.members && Carries(v.members[k], r))
            || (v.List? && exists i :: 0 <= i < |v.items| && Carries(v.items[i], r))
  {
    var path, inner :| IsAt(v, path, inner) && r in OwnText(inner);
    if path != [] {
      match path[0]
      case Key(k) => assert IsAt(v.members[k], path[1..], inner);
      case Index(i) => assert IsAt(v.items[i], path[1..], inner);
    }
  }

  lemma {:induction false} DictCarries(members: Fields, r: Name)
    ensures Carries(Dict(members), r) <==>
            r in OwnText(Dict(members)) || exists k :: k in members && Carries(members[k], r)
  {
    var v := Dict(members);
    if r in OwnText(v) {
      assert IsAt(v, [], v);
    } else if k :| k in members && Carries(members[k], r) {
      CarriesBelow(v, Key(k), members[k], r);
    } else if Carries(v, r) {
      CarriesSplits(v, r);
    }
  }

  lemma {:induction false} ListCarries(items: seq<Value>, r: Name)
    ensures Carries(List(items), r) <==> exists v :: v in items && Carries(v, r)
  {
    var l := List(items);
    if v :| v in items && Carries(v, r) {
      var i :| 0 <= i < |items| && items[i] == v;
      CarriesBelow(l, Index(i), v, r);
    }
    if Carries(l, r) {
      CarriesSplits(l, r);
    }
  }

  // ---------- what a filtered document still carries, read off the document before ----------

  ghost function UsedTags(m: Fields): set<Name>
    requires Outcome(m).0 == Filtered
  {
    PathTags(V3Of(m)).value
  }

  function V3Of(m: Fields): Fields {
    match DictAt(m, PATHS)
    case None => map[]
    case Some(paths) => V3Paths(paths)
  }

  function SchemasOf(m: Fields): Fields {
    match DictAt(m, COMPONENTS)
    case None => map[]
    case Some(components) => if DictAt(components, SCHEMAS).Some? then DictAt(components, SCHEMAS).value else map[]
  }

  ghost predicate IsReachable(m: Fields, n: Name) {
    Reachable(V3Of(m), SchemasOf(m), n)
  }

  predicate IsTagList(m: Fields, k: Name)
    requires k in m
  {
    (k == TAGS || k == TAG_GROUPS) && m[k].List?
  }

  /** A member outside paths and components carries `r`; of a list of tags or groups only the entries in use count. */
  ghost predicate MemberCarries(m: Fields, k: Name, r: Name)
    requires Outcome(m).0 == Filtered && k in m
  {
    if IsTagList(m, k) then
      exists v :: v in m[k].items && Keeps(k == TAG_GROUPS, v, UsedTags(m)) == Some(true) && Carries(v, r)
    else Carries(m[k], r)
  }

  /** The components carry `r` elsewhere than inside a schema. */
  ghost predicate BesideSchemasCarry(m: Fields, r: Name)
    requires COMPONENTS in m
  {
    var c := m[COMPONENTS];
    if c.Dict? && DictAt(c.members, SCHEMAS).Some? then
      || r in OwnText(c)
      || (exists k :: k in c.members && k != SCHEMAS && Carries(c.members[k], r))
      || (IsReachable(m, REF) && r in OwnText(c.members[SCHEMAS]))
    else Carries(c, r)
  }

  /** The document carries `r` outside its paths and its schemas. */
  ghost predicate OutsideCarries(m: Fields, r: Name)
    requires Outcome(m).0 == Filtered
  {
    || r in OwnText(Dict(m))
    || (COMPONENTS in m && BesideSchemasCarry(m, r))
    || exists k :: k in m && k != PATHS && k != COMPONENTS && MemberCarries(m, k, r)
  }

  /** A schema that the v3 paths reach carries `r`. */
  ghost predicate SchemaCarries(m: Fields, r: Name) {
    exists a :: a in SchemasOf(m) && IsReachable(m, a) && Carries(SchemasOf(m)[a], r)
  }

  /** The v3 paths, a schema they reach, or the rest of the document carries `r`. */
  ghost predicate StillCarries(m: Fields, r: Name)
    requires Outcome(m).0 == Filtered
  {
    || Carries(Dict(V3Of(m)), r)
    || SchemaCarries(m, r)
    || OutsideCarries(m, r)
  }

  // ---------- the filtered document, member by member ----------

  lemma {:induction false} RefIsNoKey()
    ensures REF !in {PATHS, COMPONENTS, SCHEMAS, TAGS, TAG_GROUPS}
  {
    assert |REF| == 4 && |PATHS| == 5 && |COMPONENTS| == 10 && |SCHEMAS| == 7 && |TAG_GROUPS| == 11;
    assert REF[0] == '$' as int && TAGS[0] == 't' as int;
  }

  lemma {:induction false} MembersAfter(m: Fields)
    requires Outcome(m).0 == Filtered
    ensures PATHS in m && m[PATHS].Dict?
    ensures var done := Outcome(m).1;
            && done.Keys == m.Keys && done[PATHS] == Dict(V3Of(m))
            && (COMPONENTS in m ==> done[COMPONENTS] == WithClosure(m, V3Of(m))[COMPONENTS])
            && (forall k | k in m && k != PATHS && k != COMPONENTS && !IsTagList(m, k) :: done[k] == m[k])
            && (forall k | k in m && IsTagList(m, k) ::
                  Kept(k == TAG_GROUPS, m[k].items, UsedTags(m)).Some?
                  && done[k] == List(Kept(k == TAG_GROUPS, m[k].items, UsedTags(m)).value))
  {
    KeysDiffer();
  }

  lemma {:induction false} SchemasAfter(m: Fields)
    requires Outcome(m).0 == Filtered
    ensures SchemasOf(Outcome(m).1) == Closure(V3Of(m), SchemasOf(m))
  {
    KeysDiffer();
    MembersAfter(m);
  }

  lemma {:induction false} KeptAreKept(forGroups: bool, items: seq<Value>, used: set<Name>, v: Value)
    requires Kept(forGroups, items, used).Some?
    ensures v in Kept(forGroups, items, used).value <==> v in items && Keeps(forGroups, v, used) == Some(true)
    decreases |items|
  {
    if items != [] {
      KeptAreKept(forGroups, items[1..], used, v);
      assert items == [items[0]] + items[1..];
    }
  }

  lemma {:induction false} MemberCarriesAfter(m: Fields, k: Name, r: Name)
    requires Outcome(m).0 == Filtered && k in m && k != PATHS && k != COMPONENTS
    ensures k in Outcome(m).1
    ensures Carries(Outcome(m).1[k], r) <==> MemberCarries(m, k, r)
  {
    MembersAfter(m);
    if IsTagList(m, k) {
      var kept := Kept(k == TAG_GROUPS, m[k].items, UsedTags(m)).value;
      ListCarries(kept, r);
      forall v
        ensures v in kept <==> v in m[k].items && Keeps(k == TAG_GROUPS, v, UsedTags(m)) == Some(true)
      {
        KeptAreKept(k == TAG_GROUPS, m[k].items, UsedTags(m), v);
      }
    }
  }

  lemma {:induction false} SubmapCarries(all: Fields, some: Fields, r: Name)
    requires forall k | k in some :: k in all && some[k] == all[k]
    ensures Carries(Dict(some), r) <==>
            (REF in some && r in OwnText(Dict(all))) || exists k :: k in some && Carries(all[k], r)
  {
    DictCarries(some, r);
  }

  lemma {:induction false} ClosureIsReachable(m: Fields)
    ensures var kept := Closure(V3Of(m), SchemasOf(m));
            forall k :: (k in kept <==> k in SchemasOf(m) && IsReachable(m, k))
                        && (k in kept ==> kept[k] == SchemasOf(m)[k])
  {
  }

  lemma {:induction false} ClosureCarries(m: Fields, kept: Fields, r: Name)
    requires kept == Closure(V3Of(m), SchemasOf(m))
    ensures Carries(Dict(kept), r) <==>
            (IsReachable(m, REF) && r in OwnText(Dict(SchemasOf(m)))) || SchemaCarries(m, r)
  {
    ClosureIsReachable(m);
    SubmapCarries(SchemasOf(m), kept, r);
    assert REF in kept <==> REF in SchemasOf(m) && IsReachable(m, REF);
    if k :| k in kept && Carries(SchemasOf(m)[k], r) {
      assert IsReachable(m, k);
    }
    if SchemaCarries(m, r) {
      var k :| k in SchemasOf(m) && IsReachable(m, k) && Carries(SchemasOf(m)[k], r);
      assert k in kept;
    }
  }

  /** Members with one of them replaced. */
  lemma {:induction false} ReplacedCarry(members: Fields, k: Name, v: Value, r: Name)
    requires k != REF
    ensures Carries(Dict(members[k := v]), r) <==>
            || r in OwnText(Dict(members)) || Carries(v, r)
            || exists other :: other in members && other != k && Carries(members[other], r)
  {
    var replaced := members[k := v];
    DictCarries(replaced, r);
    assert replaced[k] == v;
    forall other | other in members && other != k
      ensures other in replaced && replaced[other] == members[other]
    {}
    forall other | other in replaced && other != k
      ensures other in members && replaced[other] == members[other]
    {}
  }

  lemma {:induction false} ComponentsAfter(m: Fields)
    requires Outcome(m).0 == Filtered && COMPONENTS in m
    ensures COMPONENTS in Outcome(m).1
    ensures var c := m[COMPONENTS];
            Outcome(m).1[COMPONENTS] ==
              if c.Dict? && DictAt(c.members, SCHEMAS).Some? then
                Dict(c.members[SCHEMAS := Dict(Closure(V3Of(m), SchemasOf(m)))])
              else c
  {
    KeysDiffer();
    MembersAfter(m);
  }

  lemma {:induction false} ComponentsCarryAfter(m: Fields, r: Name)
    requires Outcome(m).0 == Filtered && COMPONENTS in m
    ensures COMPONENTS in Outcome(m).1
    ensures Carries(Outcome(m).1[COMPONENTS], r) <==> BesideSchemasCarry(m, r) || SchemaCarries(m, r)
  {
    RefIsNoKey();
    ComponentsAfter(m);
    var c := m[COMPONENTS];
    if c.Dict? && DictAt(c.members, SCHEMAS).Some? {
      var kept := Closure(V3Of(m), SchemasOf(m));
      ReplacedCarry(c.members, SCHEMAS, Dict(kept), r);
      ClosureCarries(m, kept, r);
    }
  }

  /** What the filtered document carries can be read off the document before. */
  lemma {:induction false} CarriesAfter(m: Fields, r: Name)
    requires Outcome(m).0 == Filtered
    ensures Carries(Dict(Outcome(m).1), r) <==> StillCarries(m, r)
  {
    var done := Outcome(m).1;
    KeysDiffer();
    RefIsNoKey();
    MembersAfter(m);
    DictCarries(done, r);
    assert OwnText(Dict(done)) == OwnText(Dict(m));
    if COMPONENTS in m {
      ComponentsCarryAfter(m, r);
    }
    forall k | k in m && k != PATHS && k != COMPONENTS
      ensures Carries(done[k], r) <==> MemberCarries(m, k, r)
    {
      MemberCarriesAfter(m, k, r);
    }
  }
}
