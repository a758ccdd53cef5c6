/**
 Cutting an API specification down to its v3 part: paths, then the schemas they reach, then tags and tag groups.
 */
module SpecFilter {
  import opened Text
  import opened JsonValue
  import opened SchemaClosure

  const PATHS: Name := PointsOf("paths")
  const COMPONENTS: Name := PointsOf("components")
  const SCHEMAS: Name := PointsOf("schemas")
  const TAGS: Name := PointsOf("tags")
  const TAG_GROUPS: Name := PointsOf("x-tagGroups")
  const NAME: Name := PointsOf("name")
  const V3: Name := PointsOf("/v3/")

  datatype FilterResult = Filtered | MissingPaths | TypeError

  function DictAt(m: Fields, k: Name): Option<Fields> {
    if k in m && m[k].Dict? then Some(m[k].members) else None
  }

  function V3Paths(paths: Fields): Fields {
    map p | p in paths && V3 <= p :: paths[p]
  }

  // ---------- tags ----------

  /** The texts that iterating over `tags` yields; nothing when it cannot be iterated. */
  function TagsOf(operation: Fields): Option<set<Name>> {
    if TAGS !in operation then Some({})
    else
      match operation[TAGS]
      case List(items) => Some(set v | v in items && v.Text? :: v.points)
      case Text(points) => Some(set i | 0 <= i < |points| :: [points[i]])
      case Dict(members) => Some(members.Keys)
      case _ => None
  }

  /** The operations of a path item: its members that are objects. */
  predicate IsOperation(paths: Fields, p: Name, o: Name) {
    p in paths && paths[p].Dict? && o in paths[p].members && paths[p].members[o].Dict?
  }

  /** All tags used by operations; nothing when some operation's tags cannot be iterated. */
  ghost function PathTags(paths: Fields): Option<set<Name>> {
    if exists p, o :: IsOperation(paths, p, o) && TagsOf(paths[p].members[o].members) == None then None
    else
      Some(set p, o, t | p in paths && paths[p].Dict? && o in paths[p].members && IsOperation(paths, p, o)
                         && t in TagsOf(paths[p].members[o].members).value :: t)
  }

  /** Whether a tag object is kept; nothing when its name cannot be looked up in a set. */
  function KeepsTag(tag: Value, used: set<Name>): Option<bool> {
    if !tag.Dict? || NAME !in tag.members then Some(false)
    else
      match tag.members[NAME]
      case Text(points) => Some(points in used)
      case List(_) => None
      case Dict(_) => None
      case _ => Some(false)
  }

  function AnyUsed(items: seq<Value>, used: set<Name>): Option<bool> {
    if items == [] then Some(false)
    else if items[0].List? || items[0].Dict? then None
    else if items[0].Text? && items[0].points in used then Some(true)
    else AnyUsed(items[1..], used)
  }

  function KeepsGroup(group: Value, used: set<Name>): Option<bool> {
    if !group.Dict? || TAGS !in group.members then Some(false)
    else
      match group.members[TAGS]
      case List(items) => AnyUsed(items, used)
      case Text(points) => Some(exists i | 0 <= i < |points| :: [points[i]] in used)
      case Dict(members) => Some(exists k | k in members.Keys :: k in used)
      case _ => None
  }

  function Keeps(forGroups: bool, v: Value, used: set<Name>): Option<bool> {
    if forGroups then KeepsGroup(v, used) else KeepsTag(v, used)
  }

  function Kept(forGroups: bool, items: seq<Value>, used: set<Name>): Option<seq<Value>> {
    if items == [] then Some([])
    else
      match Keeps(forGroups, items[0], used)
      case None => None
      case Some(keep) =>
        var rest := Kept(forGroups, items[1..], used);
        if rest.None? then None else Some((if keep then [items[0]] else []) + rest.value)
  }

  // ---------- the whole document ----------

  ghost function WithClosure(m: Fields, v3: Fields): Fields {
    var trimmed := m[PATHS := Dict(v3)];
    match DictAt(trimmed, COMPONENTS)
    case None => trimmed
    case Some(components) =>
      match DictAt(components, SCHEMAS)
      case None => trimmed
      case Some(schemas) => trimmed[COMPONENTS := Dict(components[SCHEMAS := Dict(Closure(v3, schemas))])]
  }

  /** One list member with only the entries in use, when it is a list. */
  function WithKept(m: Fields, k: Name, forGroups: bool, used: set<Name>): Option<Fields> {
    if k !in m || !m[k].List? then Some(m)
    else
      match Kept(forGroups, m[k].items, used)
      case None => None
      case Some(items) => Some(m[k := List(items)])
  }

  /** The document and the result after the filter, also where it stops half way. */
  ghost function Outcome(m: Fields): (FilterResult, Fields) {
    match DictAt(m, PATHS)
    case None => (MissingPaths, m)
    case Some(paths) =>
      var closed := WithClosure(m, V3Paths(paths));
      match PathTags(V3Paths(paths))
      case None => (TypeError, closed)
      case Some(used) =>
        match WithKept(closed, TAGS, false, used)
        case None => (TypeError, closed)
        case Some(tagged) =>
          match WithKept(tagged, TAG_GROUPS, true, used)
          case None => (TypeError, tagged)
          case Some(grouped) => (Filtered, grouped)
  }

  // ---------- the filter as the source runs it ----------

  method CollectPathTags(paths: Fields) returns (tags: Option<set<Name>>)
    ensures tags == PathTags(paths)
  {
    var found: set<Name> := {};
    var left := paths.Keys;
    while left != {}
      invariant left <= paths.Keys
      invariant forall p, o | p !in left && IsOperation(paths, p, o) ::
                  TagsOf(paths[p].members[o].members).Some? && TagsOf(paths[p].members[o].members).value <= found
      invariant forall t | t in found :: exists p, o :: Uses(paths, p, o, t)
      decreases left
    {
      var p :| p in left;
      left := left - {p};
      if paths[p].Dict? {
        var ops := paths[p].members.Keys;
        while ops != {}
          invariant ops <= paths[p].members.Keys
          invariant forall q, o | q !in left && IsOperation(paths, q, o) && !(q == p && o in ops) ::
                      TagsOf(paths[q].members[o].members).Some? && TagsOf(paths[q].members[o].members).value <= found
          invariant forall t | t in found :: exists q, o :: Uses(paths, q, o, t)
          decreases ops
        {
          var o :| o in ops;
          ops := ops - {o};
          if paths[p].members[o].Dict? {
            var more := TagsOf(paths[p].members[o].members);
            if more.None? {
              assert IsOperation(paths, p, o);
              return None;
            }
            forall t | t in more.value
              ensures exists q, o :: Uses(paths, q, o, t)
            {
              assert Uses(paths, p, o, t);
            }
            found := found + more.value;
          }
        }
      }
    }
    PathTagsAre(paths, found);
    return Some(found);
  }

  ghost predicate Uses(paths: Fields, p: Name, o: Name, t: Name) {
    && IsOperation(paths, p, o)
    && TagsOf(paths[p].members[o].members).Some? && t in TagsOf(paths[p].members[o].members).value
  }

  lemma {:induction false} PathTagsAre(paths: Fields, found: set<Name>)
    requires forall p, o | IsOperation(paths, p, o) ::
               TagsOf(paths[p].members[o].members).Some? && TagsOf(paths[p].members[o].members).value <= found
    requires forall t | t in found :: exists p, o :: Uses(paths, p, o, t)
    ensures PathTags(paths) == Some(found)
  {
    var tags := PathTags(paths);
    assert tags.Some?;
    forall t
      ensures t in found <==> t in tags.value
    {
      if t in found {
        var p, o :| Uses(paths, p, o, t);
        assert o in paths[p].members;
      }
    }
    assert tags.value == found;
  }

  method KeptOf(forGroups: bool, items: seq<Value>, used: set<Name>) returns (kept: Option<seq<Value>>)
    ensures kept == Kept(forGroups, items, used)
  {
    var r: seq<Value> := [];
    var i := 0;
    assert items[0..] == items;
    ghost var all := Kept(forGroups, items, used);
    assert all.Some? ==> r + all.value == all.value;
    while i < |items|
      invariant i <= |items|
      invariant Kept(forGroups, items[i..], used).Some? ==>
                  Kept(forGroups, items, used) == Some(r + Kept(forGroups, items[i..], used).value)
      invariant Kept(forGroups, items[i..], used).None? ==> Kept(forGroups, items, used).None?
    {
      var keep := Keeps(forGroups, items[i], used);
      assert items[i..][1..] == items[i + 1..];
      if keep.None? {
        return None;
      }
      ghost var rest := Kept(forGroups, items[i + 1..], used);
      if keep.value {
        assert rest.Some? ==> r + ([items[i]] + rest.value) == (r + [items[i]]) + rest.value;
        r := r + [items[i]];
      } else {
        assert rest.Some? ==> [] + rest.value == rest.value;
      }
      i := i + 1;
    }
    assert items[i..] == [] && r + [] == r;
    return Some(r);
  }

  class SpecDocument {
    var members: Fields

    constructor (members: Fields)
      ensures this.members == members
    {
      this.members := members;
    }

    method KeepUsed(k: Name, forGroups: bool, used: set<Name>) returns (ok: bool)
      modifies this
      ensures ok <==> WithKept(old(members), k, forGroups, used).Some?
      ensures members == if ok then WithKept(old(members), k, forGroups, used).value else old(members)
    {
      ok := true;
      if k in members && members[k].List? {
        var kept := KeptOf(forGroups, members[k].items, used);
        if kept.None? {
          return false;
        }
        members := members[k := List(kept.value)];
      }
    }

    method FilterV3Only() returns (result: FilterResult)
      modifies this
      ensures (result, members) == Outcome(old(members))
    {
      var paths := DictAt(members, PATHS);
      if paths.None? {
        return MissingPaths;
      }
      var v3 := V3Paths(paths.value);
      members := members[PATHS := Dict(v3)];
      var components := DictAt(members, COMPONENTS);
      if components.Some? {
        var schemas := DictAt(components.value, SCHEMAS);
        if schemas.Some? {
          var kept := ReferencedSchemas(v3, schemas.value);
          members := members[COMPONENTS := Dict(components.value[SCHEMAS := Dict(kept)])];
        }
      }
      assert members == WithClosure(old(members), v3);
      var used := CollectPathTags(v3);
      if used.None? {
        return TypeError;
      }
      var ok := KeepUsed(TAGS, false, used.value);
      if !ok {
        return TypeError;
      }
      ok := KeepUsed(TAG_GROUPS, true, used.value);
      return if ok then Filtered else TypeError;
    }
  }

  // ---------- running the filter again ----------

  lemma {:induction false} V3PathsAgain(paths: Fields)
    ensures V3Paths(V3Paths(paths)) == V3Paths(paths)
  {}

  lemma {:induction false} ClosureAgain(paths: Fields, schemas: Fields)
    ensures Closure(paths, Closure(paths, schemas)) == Closure(paths, schemas)
  {
    var kept := Closure(paths, schemas);
    forall n | n in kept
      ensures Reachable(paths, kept, n)
    {
      var chain :| IsChain(paths, schemas, chain) && chain[|chain| - 1] == n;
      ChainIsKept(paths, schemas, chain);
    }
  }

  /** A chain in the graph runs through kept schemas only, so it is a chain among those too. */
  lemma {:induction false} ChainIsKept(paths: Fields, schemas: Fields, chain: seq<Name>)
    requires IsChain(paths, schemas, chain)
    ensures IsChain(paths, Closure(paths, schemas), chain)
  {
    forall i | 0 <= i < |chain| - 1
      ensures chain[i] in Closure(paths, schemas)
    {
      assert IsChain(paths, schemas, chain[..i + 1]) && chain[..i + 1][i] == chain[i];
    }
  }

  lemma {:induction false} KeptAgain(forGroups: bool, items: seq<Value>, used: set<Name>)
    requires Kept(forGroups, items, used).Some?
    ensures Kept(forGroups, Kept(forGroups, items, used).value, used) == Kept(forGroups, items, used)
    decreases |items|
  {
    if items != [] {
      KeptAgain(forGroups, items[1..], used);
      var rest := Kept(forGroups, items[1..], used).value;
      var kept := Kept(forGroups, items, used).value;
      if Keeps(forGroups, items[0], used).value {
        assert kept == [items[0]] + rest && kept[1..] == rest;
      } else {
        assert kept == rest;
      }
    }
  }

  lemma {:induction false} KeysDiffer()
    ensures PATHS != COMPONENTS && PATHS != TAGS && PATHS != TAG_GROUPS
    ensures COMPONENTS != TAGS && COMPONENTS != TAG_GROUPS && TAGS != TAG_GROUPS
  {
    assert |PATHS| == 5 && |COMPONENTS| == 10 && |TAGS| == 4 && |TAG_GROUPS| == 11;
  }

  lemma {:induction false} WithClosureAgain(m: Fields, v3: Fields, m2: Fields)
    requires m2.Keys == WithClosure(m, v3).Keys
    requires m2[PATHS] == Dict(v3) && (COMPONENTS in m2 ==> m2[COMPONENTS] == WithClosure(m, v3)[COMPONENTS])
    ensures WithClosure(m2, v3) == m2
  {
    KeysDiffer();
    assert m2[PATHS := Dict(v3)] == m2;
    var components := DictAt(m[PATHS := Dict(v3)], COMPONENTS);
    if components.Some? && DictAt(components.value, SCHEMAS).Some? {
      var schemas := DictAt(components.value, SCHEMAS).value;
      ClosureAgain(v3, schemas);
      var cut := components.value[SCHEMAS := Dict(Closure(v3, schemas))];
      assert cut[SCHEMAS := Dict(Closure(v3, schemas))] == cut;
      assert m2[COMPONENTS] == Dict(cut);
      assert m2[COMPONENTS := Dict(cut)] == m2;
    }
  }

  lemma {:induction false} WithKeptAgain(m: Fields, k: Name, forGroups: bool, used: set<Name>, m2: Fields)
    requires WithKept(m, k, forGroups, used).Some?
    requires m2.Keys == m.Keys && (k in m ==> m2[k] == WithKept(m, k, forGroups, used).value[k])
    ensures WithKept(m2, k, forGroups, used) == Some(m2)
  {
    if k in m && m[k].List? {
      KeptAgain(forGroups, m[k].items, used);
      assert m2[k := m2[k]] == m2;
    }
  }

  /** Filtering a filtered document changes nothing and succeeds. */
  lemma {:induction false} FilterIsIdempotent(m: Fields)
    requires Outcome(m).0 == Filtered
    ensures Outcome(Outcome(m).1) == Outcome(m)
  {
    KeysDiffer();
    var v3 := V3Paths(m[PATHS].members);
    var used := PathTags(v3).value;
    var closed := WithClosure(m, v3);
    var tagged := WithKept(closed, TAGS, false, used).value;
    var done := Outcome(m).1;
    V3PathsAgain(m[PATHS].members);
    WithClosureAgain(m, v3, done);
    WithKeptAgain(closed, TAGS, false, used, done);
    WithKeptAgain(tagged, TAG_GROUPS, true, used, done);
  }
}
