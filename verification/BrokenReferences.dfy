/**
 Which references of an API specification still lead where they led before once it is cut down to its v3 part, and
 exactly when none of those that it keeps is broken.
 */
module BrokenReferences {
  import opened Text
  import opened JsonValue
  import opened JsonPointer
  import opened SchemaClosure
  import opened SpecFilter
  import opened SpecReferences

  // ---------- places that survive the filter ----------

  predicate Resolves(m: Fields, t: seq<Token>) {
    Resolve(Dict(m), t).Some?
  }

  /** The place of a list of tags or groups from which its `j`-th kept entry comes. */
  function Origin(forGroups: bool, items: seq<Value>, used: set<Name>, j: nat): nat
    requires Kept(forGroups, items, used).Some? && j < |Kept(forGroups, items, used).value|
    decreases |items|
  {
    if Keeps(forGroups, items[0], used) == Some(true) then
      if j == 0 then 0 else 1 + Origin(forGroups, items[1..], used, j - 1)
    else 1 + Origin(forGroups, items[1..], used, j)
  }

  /** The first `end` entries are all kept. */
  predicate AllKept(forGroups: bool, items: seq<Value>, used: set<Name>, end: nat)
    decreases end
  {
    end == 0 || items == []
    || (Keeps(forGroups, items[0], used) == Some(true) && AllKept(forGroups, items[1..], used, end - 1))
  }

  /** The pointer leads into an entry of a list that the filter may shorten. */
  predicate IntoTagList(m: Fields, t: seq<Token>) {
    |t| >= 2 && t[0] in m && IsTagList(m, t[0]) && IndexOf(t[1]).Some?
  }

  /** The entry at this place of a list is still the one at this place once the list is shortened. */
  ghost predicate SameEntry(forGroups: bool, items: seq<Value>, used: set<Name>, i: nat) {
    var kept := Kept(forGroups, items, used);
    kept.Some? && i < |kept.value| && Origin(forGroups, items, used, i) == i
  }

  /** A pointer that resolved before still resolves, and one into a shortened list still finds the same entry. */
  ghost predicate Holds(m: Fields, t: seq<Token>)
    requires Outcome(m).0 == Filtered
  {
    && Resolves(Outcome(m).1, t)
    && (IntoTagList(m, t) ==> SameEntry(t[0] == TAG_GROUPS, m[t[0]].items, UsedTags(m), IndexOf(t[1]).value))
  }

  /**
   What keeps a pointer alive, read off the document before: it leads into no path but a v3 one, into no schema that
   the filter does not reach, and into no entry of a list from which this or an earlier entry is dropped.
   */
  ghost predicate Survives(m: Fields, t: seq<Token>)
    requires Outcome(m).0 == Filtered
  {
    && (|t| >= 2 && t[0] == PATHS ==> V3 <= t[1])
    && (|t| >= 3 && t[0] == COMPONENTS && t[1] == SCHEMAS && t[2] in SchemasOf(m) ==> IsReachable(m, t[2]))
    && (IntoTagList(m, t) ==>
          AllKept(t[0] == TAG_GROUPS, m[t[0]].items, UsedTags(m), IndexOf(t[1]).value + 1))
  }

  lemma {:induction false} OriginIs(forGroups: bool, items: seq<Value>, used: set<Name>, j: nat)
    requires Kept(forGroups, items, used).Some? && j < |Kept(forGroups, items, used).value|
    ensures var o := Origin(forGroups, items, used, j);
            && j <= o < |items| && items[o] == Kept(forGroups, items, used).value[j]
            && (o == j <==> AllKept(forGroups, items, used, j + 1))
    decreases |items|
  {
    var keep := Keeps(forGroups, items[0], used) == Some(true);
    if keep && j > 0 {
      OriginIs(forGroups, items[1..], used, j - 1);
    } else if !keep {
      OriginIs(forGroups, items[1..], used, j);
    }
  }

  lemma {:induction false} AllKeptStays(forGroups: bool, items: seq<Value>, used: set<Name>, i: nat)
    requires Kept(forGroups, items, used).Some? && i < |items| && AllKept(forGroups, items, used, i + 1)
    ensures i < |Kept(forGroups, items, used).value|
    decreases |items|
  {
    if i > 0 {
      AllKeptStays(forGroups, items[1..], used, i - 1);
    }
  }

  lemma {:induction false} SameEntryIff(forGroups: bool, items: seq<Value>, used: set<Name>, i: nat)
    requires Kept(forGroups, items, used).Some? && i < |items|
    ensures SameEntry(forGroups, items, used, i) <==> AllKept(forGroups, items, used, i + 1)
    ensures SameEntry(forGroups, items, used, i) ==> Kept(forGroups, items, used).value[i] == items[i]
  {
    if i < |Kept(forGroups, items, used).value| {
      OriginIs(forGroups, items, used, i);
    } else if AllKept(forGroups, items, used, i + 1) {
      AllKeptStays(forGroups, items, used, i);
    }
  }

  /** The containers whose own content the filter cuts. */
  predicate IsCut(t: seq<Token>) {
    t in {[], [PATHS], [COMPONENTS], [COMPONENTS, SCHEMAS], [TAGS], [TAG_GROUPS]}
  }

  /** What the filter leaves at a place. */
  ghost predicate StaysSame(m: Fields, t: seq<Token>) {
    Resolve(Dict(Outcome(m).1), t) == Resolve(Dict(m), t)
  }

  lemma {:induction false} Descend(m: Fields, t: seq<Token>)
    requires t != []
    ensures Resolve(Dict(m), t) == if t[0] in m then Resolve(m[t[0]], t[1..]) else None
  {
  }

  lemma {:induction false} PathsHold(m: Fields, t: seq<Token>)
    requires Outcome(m).0 == Filtered && Resolves(m, t) && t != [] && t[0] == PATHS
    ensures Resolves(Outcome(m).1, t) <==> (|t| >= 2 ==> V3 <= t[1])
    ensures Resolves(Outcome(m).1, t) && |t| >= 2 ==> StaysSame(m, t)
  {
    MembersAfter(m);
    Descend(m, t);
    Descend(Outcome(m).1, t);
    if |t| >= 2 {
      Descend(m[PATHS].members, t[1..]);
      Descend(V3Of(m), t[1..]);
    }
  }

  lemma {:induction false} SchemasHold(m: Fields, t: seq<Token>)
    requires Outcome(m).0 == Filtered && Resolves(m, t) && |t| >= 2 && t[0] == COMPONENTS && t[1] == SCHEMAS
    ensures Resolves(Outcome(m).1, t) <==> (|t| >= 3 && t[2] in SchemasOf(m) ==> IsReachable(m, t[2]))
    ensures Resolves(Outcome(m).1, t) && |t| >= 3 ==> StaysSame(m, t)
  {
    ComponentsAfter(m);
    Descend(m, t);
    Descend(Outcome(m).1, t);
    var c := m[COMPONENTS];
    if c.Dict? && DictAt(c.members, SCHEMAS).Some? {
      var kept := Closure(V3Of(m), SchemasOf(m));
      ClosureIsReachable(m);
      Descend(c.members, t[1..]);
      Descend(c.members[SCHEMAS := Dict(kept)], t[1..]);
      assert t[1..][1..] == t[2..];
      if |t| >= 3 {
        Descend(SchemasOf(m), t[2..]);
        Descend(kept, t[2..]);
      }
    }
  }

  lemma {:induction false} ComponentsHold(m: Fields, t: seq<Token>)
    requires Outcome(m).0 == Filtered && Resolves(m, t)
    requires t != [] && t[0] == COMPONENTS && (|t| >= 2 ==> t[1] != SCHEMAS)
    ensures Resolves(Outcome(m).1, t)
    ensures |t| >= 2 ==> StaysSame(m, t)
  {
    ComponentsAfter(m);
    Descend(m, t);
    Descend(Outcome(m).1, t);
    var c := m[COMPONENTS];
    if |t| >= 2 && c.Dict? && DictAt(c.members, SCHEMAS).Some? {
      Descend(c.members, t[1..]);
      Descend(c.members[SCHEMAS := Dict(Closure(V3Of(m), SchemasOf(m)))], t[1..]);
    }
  }

  lemma {:induction false} TagListHolds(m: Fields, t: seq<Token>)
    requires Outcome(m).0 == Filtered && Resolves(m, t) && t != [] && t[0] in m && IsTagList(m, t[0])
    ensures |t| >= 2 ==> IntoTagList(m, t)
    ensures Holds(m, t) <==> Survives(m, t)
    ensures Holds(m, t) && |t| >= 2 ==> StaysSame(m, t)
  {
    KeysDiffer();
    MembersAfter(m);
    Descend(m, t);
    Descend(Outcome(m).1, t);
    if |t| >= 2 {
      var k, i := t[0], IndexOf(t[1]).value;
      SameEntryIff(k == TAG_GROUPS, m[k].items, UsedTags(m), i);
    }
  }

  /** A pointer that resolved before holds exactly if it survives by what can be read off the document before. */
  lemma {:induction false} HoldsIff(m: Fields, t: seq<Token>)
    requires Outcome(m).0 == Filtered && Resolves(m, t)
    ensures Holds(m, t) <==> Survives(m, t)
    ensures Holds(m, t) && !IsCut(t) ==> StaysSame(m, t)
  {
    KeysDiffer();
    MembersAfter(m);
    if t == [] {
    } else if t[0] == PATHS {
      PathsHold(m, t);
      assert |t| == 1 ==> t == [PATHS];
    } else if t[0] == COMPONENTS && |t| >= 2 && t[1] == SCHEMAS {
      SchemasHold(m, t);
      assert |t| == 2 ==> t == [COMPONENTS, SCHEMAS];
    } else if t[0] == COMPONENTS {
      ComponentsHold(m, t);
      assert |t| == 1 ==> t == [COMPONENTS];
    } else if t[0] in m && IsTagList(m, t[0]) {
      TagListHolds(m, t);
      assert |t| == 1 ==> t == [t[0]];
    } else {
      Descend(m, t);
      Descend(Outcome(m).1, t);
    }
  }

  // ---------- broken references ----------

  /** The filtered document carries a local reference that resolved before and does not hold any more. */
  ghost predicate Breaks(m: Fields, r: Name)
    requires Outcome(m).0 == Filtered
  {
    && Carries(Dict(Outcome(m).1), r)
    && LocalPointer(r).Some? && Resolves(m, LocalPointer(r).value) && !Holds(m, LocalPointer(r).value)
  }

  /** The document before carries `r` in a part that is kept, and there it resolved. */
  ghost predicate IsAtStake(m: Fields, r: Name)
    requires Outcome(m).0 == Filtered
  {
    StillCarries(m, r) && LocalPointer(r).Some? && Resolves(m, LocalPointer(r).value)
  }

  /**
   The filter breaks no local reference exactly when none that is carried by a kept part and resolved before leads into
   a removed path, into a schema that the filter does not reach, or past a dropped entry of a shortened list.
   */
  lemma {:induction false} NothingBreaksIff(m: Fields)
    requires Outcome(m).0 == Filtered
    ensures (forall r :: !Breaks(m, r)) <==> forall r | IsAtStake(m, r) :: Survives(m, LocalPointer(r).value)
  {
    forall r
      ensures Breaks(m, r) <==> IsAtStake(m, r) && !Survives(m, LocalPointer(r).value)
    {
      CarriesAfter(m, r);
      if LocalPointer(r).Some? && Resolves(m, LocalPointer(r).value) {
        HoldsIff(m, LocalPointer(r).value);
      }
    }
  }

  // ---------- references to schemas, as the filter reads them ----------

  function ToSchema(a: Name): seq<Token> {
    [COMPONENTS, SCHEMAS, a]
  }

  predicate IsPlain(t: Token) {
    SLASH !in t && TILDE !in t
  }

  /** The text of a reference below two plain names. */
  function Below(first: Name, second: Name): Name {
    [HASH] + ([SLASH] + first + ([SLASH] + second + [SLASH]))
  }

  lemma {:induction false} PrefixIsBelow()
    ensures SCHEMAS_PREFIX == Below(COMPONENTS, SCHEMAS)
  {
    assert |COMPONENTS| == 10 && |SCHEMAS| == 7 && |SCHEMAS_PREFIX| == 21;
  }

  lemma {:induction false} NamesArePlain()
    ensures IsPlain(COMPONENTS) && IsPlain(SCHEMAS)
  {
    assert |COMPONENTS| == 10 && |SCHEMAS| == 7;
  }

  lemma {:induction false} JoinedPlainCons(first: Name, rest: seq<Token>)
    requires IsPlain(first)
    ensures Joined([first] + rest) == [SLASH] + first + Joined(rest)
  {
    EscapeIsPlainIff(first);
    assert ([first] + rest)[1..] == rest;
  }

  lemma {:induction false} ReferenceBelow(first: Name, second: Name, rest: seq<Token>)
    requires IsPlain(first) && IsPlain(second) && rest != []
    ensures ReferenceFor([first, second] + rest) == Below(first, second) + Joined(rest)[1..]
  {
    JoinedPlainCons(first, [second] + rest);
    JoinedPlainCons(second, rest);
    assert [first, second] + rest == [first] + ([second] + rest);
    BelowRest(first, second, Joined(rest));
  }

  lemma {:induction false} BelowRest(first: Name, second: Name, tail: Name)
    requires tail != [] && tail[0] == SLASH
    ensures [HASH] + ([SLASH] + first + ([SLASH] + second + tail)) == Below(first, second) + tail[1..]
  {
    assert tail == [SLASH] + tail[1..];
  }

  lemma {:induction false} ReferenceToSchema(a: Name)
    ensures ReferenceFor(ToSchema(a)) == SCHEMAS_PREFIX + Escape(a)
  {
    PrefixIsBelow();
    NamesArePlain();
    ReferenceBelow(COMPONENTS, SCHEMAS, [a]);
    assert ToSchema(a) == [COMPONENTS, SCHEMAS] + [a];
    JoinedOne(a);
  }

  lemma {:induction false} JoinedOne(a: Token)
    ensures Joined([a]) == [SLASH] + Escape(a) && Joined([a])[1..] == Escape(a)
  {
    assert Joined([a]) == [SLASH] + Escape(a) + [];
  }

  lemma {:induction false} EscapeIsPlainIff(t: Token)
    ensures Escape(t) == t <==> IsPlain(t)
    ensures |Escape(t)| >= |t|
  {
    if t != [] {
      EscapeIsPlainIff(t[1..]);
      assert t == [t[0]] + t[1..];
      if t[0] != TILDE && t[0] != SLASH {
        assert Escape(t)[1..] == Escape(t[1..]);
      }
    }
  }

  /** The filter reads a reference to a whole schema as that schema exactly if its name needs no escaping. */
  lemma {:induction false} WholeSchemaIsReadIff(a: Name)
    ensures LastSegment(ReferenceFor(ToSchema(a))) == a <==> IsPlain(a)
  {
    ReferenceToSchema(a);
    UnescapeEscape(a);
    LastSegmentOfPlain(SCHEMAS_PREFIX, Escape(a));
    EscapeIsPlainIff(a);
  }

  lemma {:induction false} CarriedIsRead(v: Value, r: Name, a: Name)
    requires Carries(v, r) && SCHEMAS_PREFIX <= r && LastSegment(r) == a
    ensures a in References(v)
  {
    var path, inner :| IsAt(v, path, inner) && r in OwnText(inner);
    assert a in OwnReference(inner);
    MentionIsReference(v, path, inner, a);
  }

  lemma {:induction false} KeptIsFollowed(m: Fields, v: Value, a: Name)
    requires Outcome(m).0 == Filtered && a in References(v)
    requires var done := Outcome(m).1;
             v == done[PATHS] || exists b :: b in SchemasOf(done) && v == SchemasOf(done)[b]
    ensures IsReachable(m, a)
  {
    SchemasAfter(m);
    MembersAfter(m);
    if v == Dict(V3Of(m)) {
      RootIsReachable(V3Of(m), SchemasOf(m), a);
    } else {
      var b :| b in SchemasOf(Outcome(m).1) && v == SchemasOf(Outcome(m).1)[b];
      NextIsReachable(V3Of(m), SchemasOf(m), b, a);
    }
  }

  lemma {:induction false} ReachableSchemaHolds(m: Fields, a: Name)
    requires Outcome(m).0 == Filtered && a in SchemasOf(m) && IsReachable(m, a)
    ensures a in SchemasOf(Outcome(m).1) && Holds(m, ToSchema(a))
  {
    SchemasAfter(m);
    SchemaResolves(m, a);
    HoldsIff(m, ToSchema(a));
  }

  /** No kept path and no kept schema loses a whole schema that it refers to by a name without `/` and `~`. */
  lemma {:induction false} KeptReferencesHold(m: Fields, v: Value, a: Name)
    requires Outcome(m).0 == Filtered && a in SchemasOf(m) && IsPlain(a)
    requires var done := Outcome(m).1;
             v == done[PATHS] || exists b :: b in SchemasOf(done) && v == SchemasOf(done)[b]
    requires Carries(v, ReferenceFor(ToSchema(a)))
    ensures a in SchemasOf(Outcome(m).1) && Holds(m, ToSchema(a))
  {
    ReferenceToSchema(a);
    WholeSchemaIsReadIff(a);
    CarriedIsRead(v, ReferenceFor(ToSchema(a)), a);
    KeptIsFollowed(m, v, a);
    ReachableSchemaHolds(m, a);
  }

  lemma {:induction false} SchemaResolves(m: Fields, a: Name)
    requires a in SchemasOf(m)
    ensures Resolves(m, ToSchema(a))
  {
    var t, c := ToSchema(a), m[COMPONENTS].members;
    Descend(m, t);
    Descend(c, t[1..]);
    Descend(SchemasOf(m), t[1..][1..]);
  }

  // ---------- four documents that are left with a broken reference ----------

  const RESPONSES: Name := PointsOf("responses")
  const INFO: Name := PointsOf("info")
  const ORDERS: Name := PointsOf("/v3/orders")

  function ReferenceObject(t: seq<Token>): Value {
    Dict(map[REF := Value.Text(ReferenceFor(t))])
  }

  lemma {:induction false} ReferenceObjectCarries(t: seq<Token>)
    ensures Carries(ReferenceObject(t), ReferenceFor(t))
    ensures LocalPointer(ReferenceFor(t)) == Some(t)
  {
    var v := ReferenceObject(t);
    assert IsAt(v, [], v) && ReferenceFor(t) in OwnText(v);
    ReferenceRoundTrip(t);
  }

  lemma {:induction false} WithoutTagsIsFiltered(m: Fields)
    requires DictAt(m, PATHS).Some? && TAGS !in m && TAG_GROUPS !in m && PathTags(V3Of(m)).Some?
    ensures Outcome(m).0 == Filtered
  {
    KeysDiffer();
  }

  /** A pointer that is carried, resolved and does not survive is broken. */
  lemma {:induction false} IsBroken(m: Fields, t: seq<Token>)
    requires Outcome(m).0 == Filtered && StillCarries(m, ReferenceFor(t)) && Resolves(m, t) && !Survives(m, t)
    ensures Breaks(m, ReferenceFor(t))
  {
    ReferenceRoundTrip(t);
    CarriesAfter(m, ReferenceFor(t));
    HoldsIff(m, t);
  }

  lemma {:induction false} LostSchemaBreaks(m: Fields, t: seq<Token>)
    requires Outcome(m).0 == Filtered && StillCarries(m, ReferenceFor(t)) && Resolves(m, t)
    requires |t| >= 3 && t[0] == COMPONENTS && t[1] == SCHEMAS && t[2] in SchemasOf(m) && !IsReachable(m, t[2])
    ensures Breaks(m, ReferenceFor(t))
  {
    IsBroken(m, t);
  }

  lemma {:induction false} NothingReachableFromNoPaths(schemas: Fields, n: Name)
    ensures !Reachable(map[], schemas, n)
  {
    assert References(Dict(map[])) == {};
  }

  /** A document without paths whose only use of a schema is a shared response. */
  function SharedResponse(a: Name): Fields {
    var schemas: Fields := map[a := Dict(map[])];
    map[PATHS := Dict(map[]),
        COMPONENTS := Dict(map[SCHEMAS := Dict(schemas), RESPONSES := ReferenceObject(ToSchema(a))])]
  }

  /** The filter drops a schema that a shared response still refers to, whatever its name. */
  lemma {:induction false} SharedResponseBreaks(a: Name)
    ensures Outcome(SharedResponse(a)).0 == Filtered
    ensures Breaks(SharedResponse(a), ReferenceFor(ToSchema(a)))
  {
    var m := SharedResponse(a);
    KeysDiffer();
    assert |RESPONSES| == 9 && |SCHEMAS| == 7;
    assert V3Of(m) == map[];
    assert PathTags(map[]).Some?;
    WithoutTagsIsFiltered(m);
    ReferenceObjectCarries(ToSchema(a));
    assert BesideSchemasCarry(m, ReferenceFor(ToSchema(a))) by {
      assert RESPONSES in m[COMPONENTS].members;
    }
    SchemaResolves(m, a);
    NothingReachableFromNoPaths(SchemasOf(m), a);
    LostSchemaBreaks(m, ToSchema(a));
  }

  /** Paths of which the only v3 one is a reference; `more` are others. */
  function OnePath(t: seq<Token>, more: Fields): Fields {
    more + map[ORDERS := ReferenceObject(t)]
  }

  lemma {:induction false} OnePathIsFiltered(m: Fields, t: seq<Token>, more: Fields)
    requires TAGS !in m && TAG_GROUPS !in m && PATHS in m && m[PATHS] == Dict(OnePath(t, more))
    requires forall p | p in more :: !(V3 <= p)
    ensures V3Of(m) == map[ORDERS := ReferenceObject(t)]
    ensures Outcome(m).0 == Filtered && StillCarries(m, ReferenceFor(t))
  {
    KeysDiffer();
    assert V3 <= ORDERS;
    var paths := V3Of(m);
    assert paths == map[ORDERS := ReferenceObject(t)];
    assert paths[ORDERS].members.Keys == {REF} && !paths[ORDERS].members[REF].Dict?;
    assert forall p, o :: !IsOperation(paths, p, o);
    WithoutTagsIsFiltered(m);
    ReferenceObjectCarries(t);
    CarriesBelow(Dict(paths), Key(ORDERS), paths[ORDERS], ReferenceFor(t));
  }

  /** A document whose only v3 path refers to a path that is no v3 one. */
  function RemovedPath(p: Name): Fields {
    map[PATHS := Dict(OnePath([PATHS, p], map[p := Dict(map[])]))]
  }

  /** The filter removes a path to which a kept one still refers. */
  lemma {:induction false} RemovedPathBreaks(p: Name)
    requires !(V3 <= p)
    ensures Outcome(RemovedPath(p)).0 == Filtered && Breaks(RemovedPath(p), ReferenceFor([PATHS, p]))
  {
    var m, t, more := RemovedPath(p), [PATHS, p], map[p := Dict(map[])];
    KeysDiffer();
    OnePathIsFiltered(m, t, more);
    assert V3 <= ORDERS;
    assert m[PATHS].members[p] == Dict(map[]);
    Descend(m, t);
    Descend(m[PATHS].members, t[1..]);
    IsBroken(m, t);
  }

  function ToPart(a: Name, part: Name): seq<Token> {
    [COMPONENTS, SCHEMAS, a, part]
  }

  /** A document whose only v3 path refers to a part of a schema. */
  function PartOfSchema(a: Name, part: Name): Fields {
    var schemas: Fields := map[a := Dict(map[part := Dict(map[])])];
    map[PATHS := Dict(OnePath(ToPart(a, part), map[])), COMPONENTS := Dict(map[SCHEMAS := Dict(schemas)])]
  }

  lemma {:induction false} PartResolves(a: Name, part: Name)
    ensures SchemasOf(PartOfSchema(a, part)) == map[a := Dict(map[part := Dict(map[])])]
    ensures Resolves(PartOfSchema(a, part), ToPart(a, part))
  {
    KeysDiffer();
    var m, t := PartOfSchema(a, part), ToPart(a, part);
    Descend(m, t);
    Descend(m[COMPONENTS].members, t[1..]);
    Descend(SchemasOf(m), t[1..][1..]);
    Descend(SchemasOf(m)[a].members, t[1..][1..][1..]);
  }

  lemma {:induction false} PartIsFiltered(a: Name, part: Name)
    ensures var m, t := PartOfSchema(a, part), ToPart(a, part);
            Outcome(m).0 == Filtered && V3Of(m) == map[ORDERS := ReferenceObject(t)] && StillCarries(m, ReferenceFor(t))
  {
    KeysDiffer();
    OnePathIsFiltered(PartOfSchema(a, part), ToPart(a, part), map[]);
  }

  lemma {:induction false} ObjectReads(r: Name, n: Name)
    requires SCHEMAS_PREFIX <= r && LastSegment(r) == n
    ensures References(Dict(map[REF := Value.Text(r)])) == {n}
  {
    var v := Dict(map[REF := Value.Text(r)]);
    assert v.members.Keys == {REF} && References(v.members[REF]) == {};
    assert OwnReference(v) == {n};
  }

  lemma {:induction false} MemberReads(k: Name, v: Value, n: Name)
    requires k != REF && References(v) == {n}
    ensures References(Dict(map[k := v])) == {n}
  {
    var w := Dict(map[k := v]);
    assert w.members.Keys == {k} && w.members[k] == v;
    assert OwnReference(w) == {};
  }

  lemma {:induction false} PartIsRead(a: Name, part: Name)
    ensures References(Dict(map[ORDERS := ReferenceObject(ToPart(a, part))])) == {Escape(part)}
  {
    ReferenceToPart(a, part);
    UnescapeEscape(part);
    LastSegmentOfPlain(SCHEMAS_PREFIX + (Escape(a) + [SLASH]), Escape(part));
    ObjectReads(ReferenceFor(ToPart(a, part)), Escape(part));
    assert |ORDERS| == 10 && |REF| == 4;
    MemberReads(ORDERS, ReferenceObject(ToPart(a, part)), Escape(part));
  }

  lemma {:induction false} ReferenceToPart(a: Name, part: Name)
    ensures ReferenceFor(ToPart(a, part)) == (SCHEMAS_PREFIX + (Escape(a) + [SLASH])) + Escape(part)
  {
    PrefixIsBelow();
    NamesArePlain();
    ReferenceBelow(COMPONENTS, SCHEMAS, [a, part]);
    assert ToPart(a, part) == [COMPONENTS, SCHEMAS] + [a, part];
    JoinedOne(part);
    assert [a, part][1..] == [part];
    assert Joined([a, part]) == [SLASH] + Escape(a) + ([SLASH] + Escape(part));
    assert Joined([a, part])[1..] == (Escape(a) + [SLASH]) + Escape(part);
  }

  lemma {:induction false} OnlyPartIsReachable(paths: Fields, schemas: Fields, part: Name, n: Name)
    requires References(Dict(paths)) == {part} && part !in schemas && Reachable(paths, schemas, n)
    ensures n == part
  {
    var chain :| IsChain(paths, schemas, chain) && chain[|chain| - 1] == n;
    assert |chain| == 1;
  }

  lemma {:induction false} PartLosesSchema(a: Name, part: Name)
    requires Escape(part) != a
    ensures !IsReachable(PartOfSchema(a, part), a)
  {
    var m := PartOfSchema(a, part);
    PartIsFiltered(a, part);
    PartResolves(a, part);
    PartIsRead(a, part);
    if IsReachable(m, a) {
      OnlyPartIsReachable(V3Of(m), SchemasOf(m), Escape(part), a);
    }
  }

  /** The filter drops a schema into which a kept v3 path still refers: it looked for the part by its own name. */
  lemma {:induction false} PartOfSchemaBreaks(a: Name, part: Name)
    requires Escape(part) != a
    ensures Outcome(PartOfSchema(a, part)).0 == Filtered
    ensures Breaks(PartOfSchema(a, part), ReferenceFor(ToPart(a, part)))
  {
    var m, t := PartOfSchema(a, part), ToPart(a, part);
    PartIsFiltered(a, part);
    PartResolves(a, part);
    PartLosesSchema(a, part);
    LostSchemaBreaks(m, t);
  }

  const FIRST: Token := [ZERO]

  /** A document without paths that refers to its only tag. */
  const UNUSED_TAG: Fields :=
    map[PATHS := Dict(map[]), TAGS := List([Dict(map[])]), INFO := ReferenceObject([TAGS, FIRST])]

  lemma {:induction false} NamelessIsDropped(used: set<Name>)
    ensures Kept(false, [Dict(map[])], used) == Some([])
  {
    var tags: seq<Value> := [Dict(map[])];
    assert tags[1..] == [];
    assert Keeps(false, tags[0], used) == Some(false);
    assert Kept(false, tags[1..], used) == Some([]);
    assert Kept(false, tags, used).Some? && |Kept(false, tags, used).value| == 0;
  }

  lemma {:induction false} ZeroIsIndex(t: Token)
    requires t == [ZERO]
    ensures IndexOf(t) == Some(0)
  {
    assert t[0] == ZERO && |t| == 1;
    assert t[..|t| - 1] == [];
    assert Decimal(t[..|t| - 1]) == 0;
    assert Decimal(t) == 0;
    assert !(exists i | 0 <= i < |t| :: t[i] < ZERO || ZERO + 9 < t[i]);
    assert IndexOf(t).Some?;
  }

  /** The filter drops an unused tag to which the document still refers. */
  lemma {:induction false} UnusedTagBreaks()
    ensures Outcome(UNUSED_TAG).0 == Filtered && Breaks(UNUSED_TAG, ReferenceFor([TAGS, FIRST]))
  {
    var m, t := UNUSED_TAG, [TAGS, FIRST];
    KeysDiffer();
    assert |INFO| == 4 && INFO[0] == 'i' as int && TAGS[0] == 't' as int;
    assert V3Of(m) == map[];
    assert PathTags(map[]).Some?;
    NamelessIsDropped(PathTags(map[]).value);
    assert WithClosure(m, map[])[TAGS] == m[TAGS] && TAG_GROUPS !in m;
    assert Outcome(m).0 == Filtered;
    ZeroIsIndex(FIRST);
    Descend(m, t);
    assert Child(m[TAGS], t[1..][0]).Some? && t[1..][1..] == [];
    assert Resolves(m, t);
    ReferenceObjectCarries(t);
    assert MemberCarries(m, INFO, ReferenceFor(t));
    IsBroken(m, t);
  }
}
