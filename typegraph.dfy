/**
 * The graph builder of typegraph.go: discovery of struct and interface types into the structs
 * map (addStruct, follow, findStructs), the links between them and the orphan classification
 * done by main, and the stringArgs flag type.
 */
module TypeGraph {
  import opened Wrappers
  import opened GoTypes
  import opened Inclusions
  import opened Maps
  import Strings
  import Sets

  /** field: a struct field or an interface method. The rendered TypeName and FullType strings are not modelled. */
  datatype Field = Field(name: string, typ: GoType)

  /** structType. pkgPath stands for the *types.Package it holds; Depth is an int that only grows from 0. */
  datatype StructType = StructType(
    pkgPath: string,
    name: string,
    fullName: string,
    pkgName: string,
    fields: seq<Field>,
    depth: nat,
    orphan: bool)

  /** useInfo: a reference from a field of one entity to another entity. */
  datatype UseInfo = UseInfo(fromStruct: string, fromField: string, toStruct: string)

  /** An entry of a package's Defs: a type name (at package scope or local to a function) or any other object. */
  datatype Def = TypeName(name: string, packageLevel: bool) | OtherObject(name: string)

  type Structs = map<string, StructType>

  function FullName(path: string, name: string): string
  {
    path + "." + name
  }

  /** types.Named.String(): the package path and the name, or the name alone for a predeclared type such as error. */
  function TypeString(k: Key): string
  {
    match k.pkg
    case Some(p) => FullName(p, k.name)
    case None => k.name
  }

  /**
   * findNamedTypes: the named types reached from t through arrays, channels, maps (key side then
   * element side), pointers and slices. Every one of them occurs in t.
   */
  function NamedTypes(t: GoType): (r: seq<Key>)
    ensures forall k :: k in r ==> k in KeysIn(t)
  {
    match t
    case Named(k) => [k]
    case Array(e) => NamedTypes(e)
    case Chan(e) => NamedTypes(e)
    case Map(k, e) => NamedTypes(k) + NamedTypes(e)
    case Pointer(e) => NamedTypes(e)
    case Slice(e) => NamedTypes(e)
    case _ => []
  }

  /** Types built from named and basic types by the wrappers findNamedTypes looks through. */
  ghost predicate WrapperOnly(t: GoType)
  {
    match t
    case Named(_) => true
    case Basic(_) => true
    case Array(e) => WrapperOnly(e)
    case Chan(e) => WrapperOnly(e)
    case Pointer(e) => WrapperOnly(e)
    case Slice(e) => WrapperOnly(e)
    case Map(k, e) => WrapperOnly(k) && WrapperOnly(e)
    case _ => false
  }

  /** On such types findNamedTypes finds every named type that occurs. */
  lemma {:induction false} NamedTypesComplete(t: GoType, k: Key)
    requires WrapperOnly(t)
    ensures k in NamedTypes(t) <==> k in KeysIn(t)
  {
    match t
    case Named(_) =>
    case Basic(_) =>
    case Array(e) => NamedTypesComplete(e, k);
    case Chan(e) => NamedTypesComplete(e, k);
    case Pointer(e) => NamedTypesComplete(e, k);
    case Slice(e) => NamedTypesComplete(e, k);
    case Map(kt, e) => NamedTypesComplete(kt, k); NamedTypesComplete(e, k);
  }

  /** The two examples documented on findNamedTypes: []*time.Time and map[time.Time]time.Duration. */
  lemma NamedTypesExamples()
    ensures var time := Key(Some("time"), "Time");
            var duration := Key(Some("time"), "Duration");
            NamedTypes(Slice(Pointer(Named(time)))) == [time] &&
            NamedTypes(Map(Named(time), Named(duration))) == [time, duration]
  {
  }

  /** The fields or methods an underlying type contributes to an entity. */
  function Members(u: GoType): seq<Var>
  {
    match u
    case Struct(fs) => fs
    case Interface(ms) => ms
    case _ => []
  }

  function ToFields(vs: seq<Var>): seq<Field>
  {
    seq(|vs|, i requires 0 <= i < |vs| => Field(vs[i].name, vs[i].typ))
  }

  /** The entity addStruct creates for a named type of the given package. */
  function Entity(path: string, name: string, underlying: GoType, depth: nat): StructType
  {
    StructType(path, name, FullName(path, name), Strings.PkgName(path), ToFields(Members(underlying)), depth, false)
  }

  /** The entity stored under k was created from the underlying type of its own named type, which was included. */
  ghost predicate Describes(env: Env, r: Rules, k: string, e: StructType)
  {
    var key := Key(Some(e.pkgPath), e.name);
    && key in env
    && Composite(env[key])
    && Included(r, e.pkgPath, e.name)
    && k == e.fullName == FullName(e.pkgPath, e.name)
    && e.pkgName == Strings.PkgName(e.pkgPath)
    && e.fields == ToFields(Members(env[key]))
  }

  ghost predicate Sound(env: Env, r: Rules, m: Structs)
  {
    forall k {:trigger Describes(env, r, k, m[k])} :: k in m ==> Describes(env, r, k, m[k])
  }

  /** A named type has been dealt with: it has an entity, or addStruct would create none for it. */
  ghost predicate Handled(env: Env, r: Rules, m: Structs, t: Key)
  {
    t.pkg.Some? && t in env ==>
      TypeString(t) in m || !Included(r, t.pkg.value, t.name) || !Composite(env[t])
  }

  /** The named types that follow visits from these fields. */
  ghost function Targets(fields: seq<Field>): set<Key>
  {
    set i, t | 0 <= i < |fields| && t in NamedTypes(fields[i].typ) :: t
  }

  ghost predicate IsStructEntity(env: Env, e: StructType)
  {
    Key(Some(e.pkgPath), e.name) in env && env[Key(Some(e.pkgPath), e.name)].Struct?
  }

  /**
   * Every struct entity outside pending (the entities whose fields are still being followed)
   * has all its targets handled. With pending empty: discovery is closed under following fields.
   */
  ghost predicate ClosedExcept(env: Env, r: Rules, m: Structs, pending: set<string>)
  {
    forall k :: k in m && k !in pending && IsStructEntity(env, m[k]) ==>
      forall t :: t in Targets(m[k].fields) ==> Handled(env, r, m, t)
  }

  /** The named types of the program that have no entity yet: the measure that makes discovery terminate. */
  ghost function Unseen(env: Env, m: Structs): set<Key>
  {
    set k | k in env && TypeString(k) !in m
  }

  lemma HandledGrows(env: Env, r: Rules, m0: Structs, m1: Structs)
    requires Grows(m0, m1)
    ensures forall t :: Handled(env, r, m0, t) ==> Handled(env, r, m1, t)
  {
  }

  /** The first j names stay handled as the map grows, and the next one, handled in m1, joins them. */
  lemma HandledPrefixGrows(env: Env, r: Rules, m0: Structs, m1: Structs, names: seq<Key>, j: nat)
    requires Grows(m0, m1) && j < |names|
    requires forall j' :: 0 <= j' < j ==> Handled(env, r, m0, names[j'])
    requires Handled(env, r, m1, names[j])
    ensures forall j' :: 0 <= j' <= j ==> Handled(env, r, m1, names[j'])
  {
    HandledGrows(env, r, m0, m1);
  }

  lemma UnseenGrows(env: Env, m0: Structs, m1: Structs)
    requires Grows(m0, m1)
    ensures |Unseen(env, m1)| <= |Unseen(env, m0)|
  {
    Sets.SubsetCard(Unseen(env, m1), Unseen(env, m0));
  }

  /** Entries added to a closed map are either pending or not followed at all. */
  lemma ClosedExceptGrows(env: Env, r: Rules, m0: Structs, m1: Structs, p0: set<string>, p1: set<string>)
    requires Grows(m0, m1) && ClosedExcept(env, r, m0, p0) && p0 <= p1
    requires forall k :: k in m1 && k !in m0 ==> k in p1 || !IsStructEntity(env, m1[k])
    ensures ClosedExcept(env, r, m1, p1)
  {
    HandledGrows(env, r, m0, m1);
  }

  /** Storing a new entity keeps the map sound, shrinks the unseen set, and leaves only a new struct pending. */
  lemma InsertEntity(env: Env, r: Rules, m0: Structs, pending: set<string>, path: string, name: string, depth: nat)
    requires Sound(env, r, m0) && ClosedExcept(env, r, m0, pending)
    requires Key(Some(path), name) in env && Composite(env[Key(Some(path), name)])
    requires Included(r, path, name) && FullName(path, name) !in m0
    ensures var m1 := m0[FullName(path, name) := Entity(path, name, env[Key(Some(path), name)], depth)];
            && Sound(env, r, m1)
            && Grows(m0, m1)
            && |Unseen(env, m1)| < |Unseen(env, m0)|
            && Handled(env, r, m1, Key(Some(path), name))
            && ClosedExcept(env, r, m1, pending + if env[Key(Some(path), name)].Struct? then {FullName(path, name)} else {})
  {
    var key := Key(Some(path), name);
    var m1 := m0[FullName(path, name) := Entity(path, name, env[key], depth)];
    assert TypeString(key) == FullName(path, name);
    Sets.StrictSubsetCard(Unseen(env, m1), Unseen(env, m0), key);
    ClosedExceptGrows(env, r, m0, m1, pending, pending + if env[key].Struct? then {FullName(path, name)} else {});
  }

  /** The field types of a named struct type mention only named types of the program. */
  lemma FieldsKnown(env: Env, key: Key)
    requires Closed(env) && key in env && env[key].Struct?
    ensures forall i :: 0 <= i < |env[key].fields| ==> KeysIn(env[key].fields[i].typ) <= env.Keys
  {
    var fs := env[key].fields;
    forall i | 0 <= i < |fs|
      ensures KeysIn(fs[i].typ) <= env.Keys
    {
      forall k | k in KeysIn(fs[i].typ) ensures k in env {
        assert k in KeysIn(env[key]);
      }
    }
  }

  /** Once every named type reached from its fields is handled, an entity need no longer be pending. */
  lemma CloseEntity(env: Env, r: Rules, m: Structs, pending: set<string>, fullName: string, fs: seq<Var>)
    requires ClosedExcept(env, r, m, pending + {fullName})
    requires fullName in m && m[fullName].fields == ToFields(fs)
    requires forall i, t :: 0 <= i < |fs| && t in NamedTypes(fs[i].typ) ==> Handled(env, r, m, t)
    ensures ClosedExcept(env, r, m, pending)
  {
    forall t | t in Targets(m[fullName].fields)
      ensures Handled(env, r, m, t)
    {
      var i :| 0 <= i < |fs| && t in NamedTypes(m[fullName].fields[i].typ);
      assert m[fullName].fields[i].typ == fs[i].typ;
    }
  }

  /** Some field of these fields names key among the named types follow finds in it. */
  ghost predicate Refers(fields: seq<Field>, key: Key)
  {
    exists i :: 0 <= i < |fields| && key in NamedTypes(fields[i].typ)
  }

  /**
   * Why addStruct is called with key at this depth: findStructs passes a package-level type name
   * (a seed) at depth 0, and follow passes a named type found in a field of a struct entity at
   * one depth less.
   */
  ghost predicate Origin(env: Env, seeds: set<Key>, m: Structs, key: Key, depth: nat)
  {
    if depth == 0 then key in seeds
    else exists p :: p in m && IsStructEntity(env, m[p]) && m[p].depth == depth - 1 && Refers(m[p].fields, key)
  }

  /** Entity e was stored by an addStruct call with an origin, at its own depth. */
  ghost predicate EntityOrigin(env: Env, seeds: set<Key>, m: Structs, e: StructType)
  {
    Origin(env, seeds, m, Key(Some(e.pkgPath), e.name), e.depth)
  }

  /**
   * Every entity has an origin. The trigger keeps the parent named by an origin from starting
   * another round of instantiations.
   */
  ghost predicate Justified(env: Env, seeds: set<Key>, m: Structs)
  {
    forall k {:trigger EntityOrigin(env, seeds, m, m[k])} :: k in m ==> EntityOrigin(env, seeds, m, m[k])
  }

  lemma OriginGrows(env: Env, seeds: set<Key>, m0: Structs, m1: Structs, key: Key, depth: nat)
    requires Grows(m0, m1) && Origin(env, seeds, m0, key, depth)
    ensures Origin(env, seeds, m1, key, depth)
  {
    if depth > 0 {
      var p :| p in m0 && IsStructEntity(env, m0[p]) && m0[p].depth == depth - 1 && Refers(m0[p].fields, key);
      assert p in m1 && m1[p] == m0[p];
    }
  }

  lemma OriginsGrow(env: Env, seeds: set<Key>, m0: Structs, m1: Structs, names: seq<Key>, depth: nat)
    requires Grows(m0, m1) && forall j :: 0 <= j < |names| ==> Origin(env, seeds, m0, names[j], depth)
    ensures forall j :: 0 <= j < |names| ==> Origin(env, seeds, m1, names[j], depth)
  {
    forall j | 0 <= j < |names| ensures Origin(env, seeds, m1, names[j], depth) {
      OriginGrows(env, seeds, m0, m1, names[j], depth);
    }
  }

  /** Storing an entity whose addStruct call had an origin keeps every entity justified. */
  lemma InsertJustified(env: Env, seeds: set<Key>, m0: Structs, path: string, name: string, depth: nat)
    requires Justified(env, seeds, m0) && Origin(env, seeds, m0, Key(Some(path), name), depth)
    requires Key(Some(path), name) in env && FullName(path, name) !in m0
    ensures Justified(env, seeds, m0[FullName(path, name) := Entity(path, name, env[Key(Some(path), name)], depth)])
  {
    var e := Entity(path, name, env[Key(Some(path), name)], depth);
    var m1 := m0[FullName(path, name) := e];
    forall k | k in m1
      ensures EntityOrigin(env, seeds, m1, m1[k])
    {
      if k == FullName(path, name) {
        OriginGrows(env, seeds, m0, m1, Key(Some(path), name), depth);
      } else {
        assert EntityOrigin(env, seeds, m0, m0[k]);
        OriginGrows(env, seeds, m0, m1, Key(Some(m0[k].pkgPath), m0[k].name), m0[k].depth);
      }
    }
  }

  /** Duplicate-free listing. */
  ghost predicate Distinct<T>(s: seq<T>)
  {
    forall a, b :: 0 <= a < b < |s| ==> s[a] != s[b]
  }

  lemma DistinctSnoc<T>(s: seq<T>, x: T)
    requires Distinct(s) && x !in s
    ensures Distinct(s + [x])
  {
  }

  /** order lists each element of keys exactly once: one possible iteration order of a Go map. */
  ghost predicate Enumerates(order: seq<string>, keys: set<string>)
  {
    Distinct(order) && forall k :: k in order <==> k in keys
  }

  /** The links main appends for the named types of one field, in order. */
  function NameLinks(m: Structs, from: string, field: string, names: seq<Key>): seq<UseInfo>
  {
    if names == [] then []
    else
      var to := TypeString(names[|names| - 1]);
      NameLinks(m, from, field, names[..|names| - 1]) + (if to in m then [UseInfo(from, field, to)] else [])
  }

  /** The links main appends for the fields of one entity, in order. */
  function FieldLinks(m: Structs, from: string, fields: seq<Field>): seq<UseInfo>
  {
    if fields == [] then []
    else
      var f := fields[|fields| - 1];
      FieldLinks(m, from, fields[..|fields| - 1]) + NameLinks(m, from, f.name, NamedTypes(f.typ))
  }

  /** Taking one more named type appends that type's link, if it has an entity. */
  lemma NameLinksSnoc(m: Structs, from: string, field: string, names: seq<Key>, j: nat)
    requires j < |names|
    ensures NameLinks(m, from, field, names[..j + 1]) ==
              NameLinks(m, from, field, names[..j]) +
              (if TypeString(names[j]) in m then [UseInfo(from, field, TypeString(names[j]))] else [])
  {
    assert names[..j + 1][..j] == names[..j];
  }

  /**
   * Regrouping a concatenation. Stated once as a lemma so that the link proofs get it as a fact
   * instead of proving it inside their own, much larger, contexts.
   */
  lemma ConcatAssoc<T>(a: seq<T>, b: seq<T>, c: seq<T>)
    ensures a + b + c == a + (b + c)
  {
  }

  /** Taking one more field appends that field's links. */
  lemma FieldLinksSnoc(m: Structs, from: string, fields: seq<Field>, i: nat)
    requires i < |fields|
    ensures FieldLinks(m, from, fields[..i + 1]) ==
              FieldLinks(m, from, fields[..i]) + NameLinks(m, from, fields[i].name, NamedTypes(fields[i].typ))
  {
    assert fields[..i + 1][..i] == fields[..i];
  }

  /** The links main builds when it visits the entities in the given order. */
  function LinksAlong(m: Structs, order: seq<string>): seq<UseInfo>
    requires forall k :: k in order ==> k in m
  {
    if order == [] then []
    else
      var e := m[order[|order| - 1]];
      LinksAlong(m, order[..|order| - 1]) + FieldLinks(m, e.fullName, e.fields)
  }

  /** u is one of the links main appends for the named types found in one field. */
  ghost predicate NameLink(m: Structs, from: string, field: string, names: seq<Key>, u: UseInfo)
  {
    exists j :: 0 <= j < |names| && TypeString(names[j]) in m && u == UseInfo(from, field, TypeString(names[j]))
  }

  /** u is a link of entity e: some named type of some field of e has an entity. */
  ghost predicate LinkOf(m: Structs, e: StructType, u: UseInfo)
  {
    exists i :: 0 <= i < |e.fields| && NameLink(m, e.fullName, e.fields[i].name, NamedTypes(e.fields[i].typ), u)
  }

  ghost predicate IsLink(m: Structs, u: UseInfo)
  {
    exists k :: k in m && LinkOf(m, m[k], u)
  }

  /** The entities named at either end of some link. */
  function Endpoints(links: seq<UseInfo>): set<string>
  {
    (set u | u in links :: u.fromStruct) + (set u | u in links :: u.toStruct)
  }

  lemma {:induction false} NameLinksMember(m: Structs, from: string, field: string, names: seq<Key>, u: UseInfo)
    ensures u in NameLinks(m, from, field, names) <==> NameLink(m, from, field, names, u)
  {
    if names != [] {
      var init := names[..|names| - 1];
      NameLinksMember(m, from, field, init, u);
      if u in NameLinks(m, from, field, names) && u !in NameLinks(m, from, field, init) {
        assert TypeString(names[|names| - 1]) in m && u == UseInfo(from, field, TypeString(names[|names| - 1]));
      }
      if NameLink(m, from, field, names, u) {
        var j :| 0 <= j < |names| && TypeString(names[j]) in m && u == UseInfo(from, field, TypeString(names[j]));
        if j < |init| {
          assert init[j] == names[j];
        }
      }
    }
  }

  lemma {:induction false} FieldLinksMember(m: Structs, e: StructType, n: nat, u: UseInfo)
    requires n <= |e.fields|
    ensures u in FieldLinks(m, e.fullName, e.fields[..n]) <==>
              exists i :: 0 <= i < n && NameLink(m, e.fullName, e.fields[i].name, NamedTypes(e.fields[i].typ), u)
  {
    if n > 0 {
      var fs := e.fields[..n];
      assert fs[..n - 1] == e.fields[..n - 1];
      var f := e.fields[n - 1];
      assert FieldLinks(m, e.fullName, fs) ==
        FieldLinks(m, e.fullName, e.fields[..n - 1]) + NameLinks(m, e.fullName, f.name, NamedTypes(f.typ));
      FieldLinksMember(m, e, n - 1, u);
      NameLinksMember(m, e.fullName, f.name, NamedTypes(f.typ), u);
      if exists i :: 0 <= i < n && NameLink(m, e.fullName, e.fields[i].name, NamedTypes(e.fields[i].typ), u) {
        var i :| 0 <= i < n && NameLink(m, e.fullName, e.fields[i].name, NamedTypes(e.fields[i].typ), u);
        if i == n - 1 {
          assert u in NameLinks(m, e.fullName, f.name, NamedTypes(f.typ));
        }
      }
    }
  }

  /** LinkOf is exactly membership in the links main appends for the entity. */
  lemma LinkOfFieldLinks(m: Structs, e: StructType, u: UseInfo)
    ensures LinkOf(m, e, u) <==> u in FieldLinks(m, e.fullName, e.fields)
  {
    var n := |e.fields|;
    assert e.fields[..n] == e.fields;
    FieldLinksMember(m, e, n, u);
  }

  lemma {:induction false} LinksAlongMember(m: Structs, order: seq<string>, u: UseInfo)
    requires forall k :: k in order ==> k in m
    ensures u in LinksAlong(m, order) <==> exists k :: k in order && LinkOf(m, m[k], u)
  {
    if order != [] {
      var init := order[..|order| - 1];
      var last := order[|order| - 1];
      LinksAlongMember(m, init, u);
      LinkOfFieldLinks(m, m[last], u);
      if exists k :: k in order && LinkOf(m, m[k], u) {
        var k :| k in order && LinkOf(m, m[k], u);
        if k != last {
          assert k in init;
        }
      }
    }
  }

  /** Whatever order the map is visited in, the links are exactly those IsLink describes. */
  lemma LinksAlongIsLink(m: Structs, order: seq<string>, u: UseInfo)
    requires Enumerates(order, m.Keys)
    ensures u in LinksAlong(m, order) <==> IsLink(m, u)
  {
    LinksAlongMember(m, order, u);
  }

  lemma {:induction false} LinksAlongAppend(m: Structs, a: seq<string>, b: seq<string>)
    requires forall k :: k in a + b ==> k in m
    ensures LinksAlong(m, a + b) == LinksAlong(m, a) + LinksAlong(m, b)
  {
    if b == [] {
      assert a + b == a;
    } else {
      var ab := a + b;
      var init := b[..|b| - 1];
      var last := b[|b| - 1];
      assert ab[..|ab| - 1] == a + init;
      assert ab[|ab| - 1] == last;
      var e := m[last];
      assert LinksAlong(m, ab) == LinksAlong(m, a + init) + FieldLinks(m, e.fullName, e.fields);
      assert LinksAlong(m, b) == LinksAlong(m, init) + FieldLinks(m, e.fullName, e.fields);
      LinksAlongAppend(m, a, init);
      ConcatAssoc(LinksAlong(m, a), LinksAlong(m, init), FieldLinks(m, e.fullName, e.fields));
    }
  }

  /** Removing the element at p from a duplicate-free listing of keys lists the other keys. */
  lemma RemoveAt(o: seq<string>, keys: set<string>, p: nat)
    requires Enumerates(o, keys) && p < |o|
    ensures Enumerates(o[..p] + o[p + 1..], keys - {o[p]})
  {
    var rest := o[..p] + o[p + 1..];
    forall a, b | 0 <= a < b < |rest| ensures rest[a] != rest[b] {
      var a' := if a < p then a else a + 1;
      var b' := if b < p then b else b + 1;
      assert rest[a] == o[a'] && rest[b] == o[b'];
    }
    forall k | k in rest ensures k in keys - {o[p]} {
      var q :| 0 <= q < |rest| && rest[q] == k;
      var q' := if q < p then q else q + 1;
      assert o[q'] == k && q' != p;
    }
    forall k | k in keys - {o[p]} ensures k in rest {
      var q :| 0 <= q < |o| && o[q] == k;
      if q < p {
        assert rest[q] == k;
      } else {
        assert rest[q - 1] == k;
      }
    }
  }

  /** A duplicate-free listing of a set is as long as the set is large. */
  lemma {:induction false} EnumeratesCard(o: seq<string>, keys: set<string>)
    requires Enumerates(o, keys)
    ensures |o| == |keys|
    decreases |o|
  {
    if o == [] {
      assert keys == {};
    } else {
      var n := |o| - 1;
      RemoveAt(o, keys, n);
      assert o[..n] + o[n + 1..] == o[..n];
      EnumeratesCard(o[..n], keys - {o[n]});
    }
  }

  /** Visiting o[p] in the middle contributes the same links as visiting it last. */
  lemma MoveToEnd(m: Structs, o: seq<string>, p: nat)
    requires p < |o| && forall k :: k in o ==> k in m
    ensures multiset(LinksAlong(m, o)) ==
            multiset(LinksAlong(m, o[..p] + o[p + 1..])) + multiset(FieldLinks(m, m[o[p]].fullName, m[o[p]].fields))
  {
    var front, back := o[..p], o[p + 1..];
    assert o == front + [o[p]] + back;
    assert [o[p]][..0] == [];
    LinksAlongAppend(m, front + [o[p]], back);
    LinksAlongAppend(m, front, [o[p]]);
    LinksAlongAppend(m, front, back);
  }

  /**
   * Exactly one link per (entity, field, named type with an entity): the multiset of links does
   * not depend on the order in which the Go map of entities is iterated.
   */
  lemma {:induction false} LinksOrderIndependent(m: Structs, o1: seq<string>, o2: seq<string>, keys: set<string>)
    requires keys <= m.Keys && Enumerates(o1, keys) && Enumerates(o2, keys)
    ensures multiset(LinksAlong(m, o1)) == multiset(LinksAlong(m, o2))
    decreases |o1|
  {
    EnumeratesCard(o1, keys);
    EnumeratesCard(o2, keys);
    if o1 != [] {
      var n := |o1| - 1;
      var x := o1[n];
      assert x in o2;
      var p :| 0 <= p < |o2| && o2[p] == x;
      RemoveAt(o1, keys, n);
      RemoveAt(o2, keys, p);
      assert o1[..n] + o1[n + 1..] == o1[..n];
      LinksOrderIndependent(m, o1[..n], o2[..p] + o2[p + 1..], keys - {x});
      MoveToEnd(m, o2, p);
    }
  }

  lemma EndpointsAppend(links: seq<UseInfo>, u: UseInfo)
    ensures Endpoints(links + [u]) == Endpoints(links) + {u.fromStruct, u.toStruct}
  {
    assert forall v :: v in links + [u] <==> v in links || v == u;
  }

  /** Entries that differ only in their orphan flag. */
  ghost predicate SameButOrphan(m0: Structs, m1: Structs)
  {
    m0.Keys == m1.Keys && forall k :: k in m0 ==> m1[k] == m0[k].(orphan := m1[k].orphan)
  }

  /** Setting one more orphan flag keeps the entries otherwise as they were. */
  lemma SetOrphan(m0: Structs, m1: Structs, key: string, orphan: bool)
    requires SameButOrphan(m0, m1) && key in m1
    ensures SameButOrphan(m0, m1[key := m1[key].(orphan := orphan)])
  {
  }

  /** Setting the orphan flags changes no link. */
  lemma OrphanFlagsKeepLinks(m0: Structs, m1: Structs, u: UseInfo)
    requires SameButOrphan(m0, m1)
    ensures IsLink(m0, u) <==> IsLink(m1, u)
  {
    if IsLink(m0, u) {
      var k :| k in m0 && LinkOf(m0, m0[k], u);
      var i :| 0 <= i < |m0[k].fields| && NameLink(m0, m0[k].fullName, m0[k].fields[i].name, NamedTypes(m0[k].fields[i].typ), u);
      assert m1[k].fields == m0[k].fields && m1[k].fullName == m0[k].fullName;
      assert NameLink(m1, m1[k].fullName, m1[k].fields[i].name, NamedTypes(m1[k].fields[i].typ), u);
    }
    if IsLink(m1, u) {
      var k :| k in m1 && LinkOf(m1, m1[k], u);
      var i :| 0 <= i < |m1[k].fields| && NameLink(m1, m1[k].fullName, m1[k].fields[i].name, NamedTypes(m1[k].fields[i].typ), u);
      assert m1[k].fields == m0[k].fields && m1[k].fullName == m0[k].fullName;
      assert NameLink(m0, m0[k].fullName, m0[k].fields[i].name, NamedTypes(m0[k].fields[i].typ), u);
    }
  }

  /** Setting the orphan flags changes neither soundness, closure nor which named types are handled. */
  lemma OrphanFlagsIrrelevant(env: Env, r: Rules, m0: Structs, m1: Structs)
    requires SameButOrphan(m0, m1)
    ensures Sound(env, r, m0) ==> Sound(env, r, m1)
    ensures ClosedExcept(env, r, m0, {}) ==> ClosedExcept(env, r, m1, {})
    ensures forall t :: Handled(env, r, m0, t) ==> Handled(env, r, m1, t)
  {
    if ClosedExcept(env, r, m0, {}) {
      forall k | k in m1 && IsStructEntity(env, m1[k])
        ensures forall t :: t in Targets(m1[k].fields) ==> Handled(env, r, m1, t)
      {
        assert m1[k].fields == m0[k].fields && IsStructEntity(env, m0[k]);
      }
    }
    if Sound(env, r, m0) {
      forall k | k in m1 ensures Describes(env, r, k, m1[k]) {
        assert Describes(env, r, k, m0[k]);
      }
    }
  }

  /** Setting the orphan flags keeps every entity justified by the same origin. */
  lemma OrphanFlagsKeepOrigins(env: Env, seeds: set<Key>, m0: Structs, m1: Structs)
    requires SameButOrphan(m0, m1) && Justified(env, seeds, m0)
    ensures Justified(env, seeds, m1)
  {
    forall k | k in m1
      ensures EntityOrigin(env, seeds, m1, m1[k])
    {
      assert EntityOrigin(env, seeds, m0, m0[k]);
      if m0[k].depth > 0 {
        var key := Key(Some(m0[k].pkgPath), m0[k].name);
        var p :| p in m0 && IsStructEntity(env, m0[p]) && m0[p].depth == m0[k].depth - 1 && Refers(m0[p].fields, key);
        assert m1[p].fields == m0[p].fields && IsStructEntity(env, m1[p]);
      }
    }
  }

  /** The links depend on the entities' names and fields only, so setting orphan flags keeps them. */
  lemma {:induction false} LinksAlongSameButOrphan(m0: Structs, m1: Structs, order: seq<string>)
    requires SameButOrphan(m0, m1) && forall k :: k in order ==> k in m0
    ensures LinksAlong(m0, order) == LinksAlong(m1, order)
  {
    if order != [] {
      var e := m0[order[|order| - 1]];
      LinksAlongSameButOrphan(m0, m1, order[..|order| - 1]);
      FieldLinksSameKeys(m0, m1, e.fullName, e.fields);
    }
  }

  lemma {:induction false} FieldLinksSameKeys(m0: Structs, m1: Structs, from: string, fields: seq<Field>)
    requires m0.Keys == m1.Keys
    ensures FieldLinks(m0, from, fields) == FieldLinks(m1, from, fields)
  {
    if fields != [] {
      var f := fields[|fields| - 1];
      FieldLinksSameKeys(m0, m1, from, fields[..|fields| - 1]);
      NameLinksSameKeys(m0, m1, from, f.name, NamedTypes(f.typ));
    }
  }

  lemma {:induction false} NameLinksSameKeys(m0: Structs, m1: Structs, from: string, field: string, names: seq<Key>)
    requires m0.Keys == m1.Keys
    ensures NameLinks(m0, from, field, names) == NameLinks(m1, from, field, names)
  {
    if names != [] {
      NameLinksSameKeys(m0, m1, from, field, names[..|names| - 1]);
    }
  }

  /** stringArgs: the repeatable -include and -exclude flags. */
  class StringArgs {
    var values: seq<string>

    constructor ()
      ensures values == []
    {
      values := [];
    }

    /** Set appends the flag's value and never fails. */
    method Set(value: string) returns (err: Option<string>)
      modifies this
      ensures values == old(values) + [value]
      ensures err == None
    {
      values := values + [value];
      return None;
    }
  }

  /**
   * The global structs map, the program's types (env), the include rules it is filtered by, and
   * the package-level type names findStructs may start from (seeds).
   */
  class Graph {
    const env: Env
    const rules: RuleSet
    ghost const seeds: set<Key>
    var structs: Structs

    ghost predicate Valid()
      reads this, rules
    {
      Closed(env) && Sound(env, rules.Current(), structs) && Justified(env, seeds, structs)
    }

    constructor (env: Env, rules: RuleSet, ghost seeds: set<Key>)
      requires Closed(env)
      ensures this.env == env && this.rules == rules && this.seeds == seeds && structs == map[]
      ensures Valid() && ClosedExcept(env, rules.Current(), structs, {})
    {
      this.env := env;
      this.rules := rules;
      this.seeds := seeds;
      structs := map[];
    }

    /** The loop of addStruct that appends one field per struct field or interface method. */
    static method CollectFields(vs: seq<Var>) returns (fields: seq<Field>)
      ensures fields == ToFields(vs)
    {
      fields := [];
      for i := 0 to |vs|
        invariant |fields| == i
        invariant forall j :: 0 <= j < i ==> fields[j] == Field(vs[j].name, vs[j].typ)
      {
        fields := fields + [Field(vs[i].name, vs[i].typ)];
      }
    }

    /**
     * addStruct: nothing happens for a key already present, whatever the rules say; otherwise an
     * included struct or interface gets an entity at this depth, and a struct's entity is stored
     * before its fields are followed, so that every other entity added is deeper.
     */
    method AddStruct(depth: nat, path: string, name: string, underlying: GoType, ghost pending: set<string>)
      requires Valid() && ClosedExcept(env, rules.Current(), structs, pending)
      requires Key(Some(path), name) in env && env[Key(Some(path), name)] == underlying
      requires Origin(env, seeds, structs, Key(Some(path), name), depth)
      modifies this
      decreases |Unseen(env, structs)|, 5
      ensures Valid() && Grows(old(structs), structs) && ClosedExcept(env, rules.Current(), structs, pending)
      ensures Handled(env, rules.Current(), structs, Key(Some(path), name))
      ensures FullName(path, name) in old(structs) ==> structs == old(structs)
      ensures FullName(path, name) !in old(structs) ==>
                if Included(rules.Current(), path, name) && Composite(underlying) then
                  FullName(path, name) in structs && structs[FullName(path, name)] == Entity(path, name, underlying, depth)
                else
                  structs == old(structs)
      ensures FullName(path, name) !in old(structs) && Included(rules.Current(), path, name) && underlying.Interface? ==>
                structs == old(structs)[FullName(path, name) := Entity(path, name, underlying, depth)]
      ensures forall k :: k in structs && k !in old(structs) && k != FullName(path, name) ==> structs[k].depth > depth
    {
      var fullName := FullName(path, name);
      if fullName in structs {
        return;
      }
      var included := rules.Include(path, name);
      if !included {
        return;
      }
      AddIncluded(depth, path, name, underlying, pending);
    }

    /** The rest of addStruct, for a new key whose type is included: only a struct or interface gets an entity. */
    method AddIncluded(depth: nat, path: string, name: string, underlying: GoType, ghost pending: set<string>)
      requires Valid() && ClosedExcept(env, rules.Current(), structs, pending)
      requires Key(Some(path), name) in env && env[Key(Some(path), name)] == underlying
      requires FullName(path, name) !in structs && Included(rules.Current(), path, name)
      requires Origin(env, seeds, structs, Key(Some(path), name), depth)
      modifies this
      decreases |Unseen(env, structs)|, 4
      ensures Valid() && Grows(old(structs), structs) && ClosedExcept(env, rules.Current(), structs, pending)
      ensures Handled(env, rules.Current(), structs, Key(Some(path), name))
      ensures Composite(underlying) ==>
                FullName(path, name) in structs && structs[FullName(path, name)] == Entity(path, name, underlying, depth)
      ensures !underlying.Struct? ==>
                structs == if underlying.Interface? then old(structs)[FullName(path, name) := Entity(path, name, underlying, depth)]
                           else old(structs)
      ensures forall k :: k in structs && k !in old(structs) && k != FullName(path, name) ==> structs[k].depth > depth
    {
      match underlying
      case Struct(fs) =>
        AddStructEntity(depth, path, name, fs, pending);
      case Interface(ms) =>
        Store(depth, path, name, pending);
      case _ =>
    }

    /** A new included struct: its entity is stored first, then its fields are followed one level deeper. */
    method AddStructEntity(depth: nat, path: string, name: string, fs: seq<Var>, ghost pending: set<string>)
      requires Valid() && ClosedExcept(env, rules.Current(), structs, pending)
      requires Key(Some(path), name) in env && env[Key(Some(path), name)] == Struct(fs)
      requires FullName(path, name) !in structs && Included(rules.Current(), path, name)
      requires Origin(env, seeds, structs, Key(Some(path), name), depth)
      modifies this
      decreases |Unseen(env, structs)|, 3
      ensures Valid() && Grows(old(structs), structs) && ClosedExcept(env, rules.Current(), structs, pending)
      ensures Handled(env, rules.Current(), structs, Key(Some(path), name))
      ensures FullName(path, name) in structs && structs[FullName(path, name)] == Entity(path, name, Struct(fs), depth)
      ensures forall k :: k in structs && k !in old(structs) && k != FullName(path, name) ==> structs[k].depth > depth
    {
      var fullName := FullName(path, name);
      ghost var budget := |Unseen(env, structs)|;
      Store(depth, path, name, pending);
      ghost var stored := structs;
      FieldsKnown(env, Key(Some(path), name));
      assert forall i, t :: 0 <= i < |fs| && t in NamedTypes(fs[i].typ) ==> Origin(env, seeds, structs, t, depth + 1) by {
        forall i, t | 0 <= i < |fs| && t in NamedTypes(fs[i].typ) ensures Origin(env, seeds, structs, t, depth + 1) {
          assert structs[fullName].fields[i].typ == fs[i].typ;
          assert Refers(structs[fullName].fields, t);
        }
      }
      Follow(depth + 1, fs, pending + {fullName}, budget);
      CloseEntity(env, rules.Current(), structs, pending, fullName, fs);
      HandledGrows(env, rules.Current(), stored, structs);
    }

    /** The part of addStruct that builds a new entity, one field per member, and stores it. */
    method Store(depth: nat, path: string, name: string, ghost pending: set<string>)
      requires Valid() && ClosedExcept(env, rules.Current(), structs, pending)
      requires Key(Some(path), name) in env && Composite(env[Key(Some(path), name)])
      requires Included(rules.Current(), path, name) && FullName(path, name) !in structs
      requires Origin(env, seeds, structs, Key(Some(path), name), depth)
      modifies this
      ensures structs == old(structs)[FullName(path, name) := Entity(path, name, env[Key(Some(path), name)], depth)]
      ensures Valid() && Grows(old(structs), structs)
      ensures |Unseen(env, structs)| < |Unseen(env, old(structs))|
      ensures Handled(env, rules.Current(), structs, Key(Some(path), name))
      ensures ClosedExcept(env, rules.Current(), structs,
                           pending + if env[Key(Some(path), name)].Struct? then {FullName(path, name)} else {})
    {
      var fullName := FullName(path, name);
      var pkgName := Strings.PkgName(path);
      var fields := CollectFields(Members(env[Key(Some(path), name)]));
      var entity := StructType(path, name, fullName, pkgName, fields, depth, false);
      assert entity == Entity(path, name, env[Key(Some(path), name)], depth);
      InsertEntity(env, rules.Current(), structs, pending, path, name, depth);
      InsertJustified(env, seeds, structs, path, name, depth);
      structs := structs[fullName := entity];
    }

    /**
     * follow: addStruct, at the given depth, for every named type with a package reached from a
     * field; each has its origin in the struct entity whose fields these are, one level up.
     */
    method Follow(depth: nat, fs: seq<Var>, ghost pending: set<string>, ghost budget: nat)
      requires Valid() && ClosedExcept(env, rules.Current(), structs, pending)
      requires forall i :: 0 <= i < |fs| ==> KeysIn(fs[i].typ) <= env.Keys
      requires forall i, t :: 0 <= i < |fs| && t in NamedTypes(fs[i].typ) ==> Origin(env, seeds, structs, t, depth)
      requires |Unseen(env, structs)| < budget
      modifies this
      decreases budget, 2
      ensures Valid() && Grows(old(structs), structs) && ClosedExcept(env, rules.Current(), structs, pending)
      ensures forall i, t :: 0 <= i < |fs| && t in NamedTypes(fs[i].typ) ==> Handled(env, rules.Current(), structs, t)
      ensures forall k :: k in structs && k !in old(structs) ==> structs[k].depth >= depth
    {
      ghost var r := rules.Current();
      for i := 0 to |fs|
        invariant Valid() && Grows(old(structs), structs) && ClosedExcept(env, r, structs, pending)
        invariant |Unseen(env, structs)| < budget
        invariant forall i', t :: 0 <= i' < |fs| && t in NamedTypes(fs[i'].typ) ==> Origin(env, seeds, structs, t, depth)
        invariant forall i', t :: 0 <= i' < i && t in NamedTypes(fs[i'].typ) ==> Handled(env, r, structs, t)
        invariant forall k :: k in structs && k !in old(structs) ==> structs[k].depth >= depth
      {
        ghost var m0 := structs;
        FollowNames(depth, NamedTypes(fs[i].typ), pending, budget);
        GrowsTrans(old(structs), m0, structs);
        assert forall i', t :: 0 <= i' < |fs| && t in NamedTypes(fs[i'].typ) ==> Origin(env, seeds, structs, t, depth) by {
          forall i', t | 0 <= i' < |fs| && t in NamedTypes(fs[i'].typ) ensures Origin(env, seeds, structs, t, depth) {
            OriginGrows(env, seeds, m0, structs, t, depth);
          }
        }
        assert forall i', t :: 0 <= i' <= i && t in NamedTypes(fs[i'].typ) ==> Handled(env, r, structs, t) by {
          forall i', t | 0 <= i' <= i && t in NamedTypes(fs[i'].typ) ensures Handled(env, r, structs, t) {
            if i' < i {
              assert Handled(env, r, m0, t);
              HandledGrows(env, r, m0, structs);
            }
          }
        }
      }
    }

    /** The inner loop of follow: the named types found in one field, in order. */
    method FollowNames(depth: nat, names: seq<Key>, ghost pending: set<string>, ghost budget: nat)
      requires Valid() && ClosedExcept(env, rules.Current(), structs, pending)
      requires forall j :: 0 <= j < |names| && names[j].pkg.Some? ==> names[j] in env
      requires forall j :: 0 <= j < |names| ==> Origin(env, seeds, structs, names[j], depth)
      requires |Unseen(env, structs)| < budget
      modifies this
      decreases budget, 1
      ensures Valid() && Grows(old(structs), structs) && ClosedExcept(env, rules.Current(), structs, pending)
      ensures |Unseen(env, structs)| < budget
      ensures forall t :: t in names ==> Handled(env, rules.Current(), structs, t)
      ensures forall k :: k in structs && k !in old(structs) ==> structs[k].depth >= depth
    {
      ghost var r := rules.Current();
      for j := 0 to |names|
        invariant Valid() && Grows(old(structs), structs) && ClosedExcept(env, r, structs, pending)
        invariant |Unseen(env, structs)| < budget
        invariant forall j' :: 0 <= j' < |names| ==> Origin(env, seeds, structs, names[j'], depth)
        invariant forall j' :: 0 <= j' < j ==> Handled(env, r, structs, names[j'])
        invariant forall k :: k in structs && k !in old(structs) ==> structs[k].depth >= depth
      {
        ghost var m0 := structs;
        Visit(depth, names[j], pending, budget);
        GrowsTrans(old(structs), m0, structs);
        OriginsGrow(env, seeds, m0, structs, names, depth);
        HandledPrefixGrows(env, r, m0, structs, names, j);
      }
    }

    /** One named type reached by follow: addStruct at this depth when it has a package; error, say, has none. */
    method Visit(depth: nat, n: Key, ghost pending: set<string>, ghost budget: nat)
      requires Valid() && ClosedExcept(env, rules.Current(), structs, pending)
      requires n.pkg.Some? ==> n in env
      requires Origin(env, seeds, structs, n, depth)
      requires |Unseen(env, structs)| < budget
      modifies this
      decreases budget, 0
      ensures Valid() && Grows(old(structs), structs) && ClosedExcept(env, rules.Current(), structs, pending)
      ensures |Unseen(env, structs)| < budget
      ensures Handled(env, rules.Current(), structs, n)
      ensures forall t :: Handled(env, rules.Current(), old(structs), t) ==> Handled(env, rules.Current(), structs, t)
      ensures n.pkg.None? ==> structs == old(structs)
      ensures n.pkg.Some? && TypeString(n) !in old(structs) && Included(rules.Current(), n.pkg.value, n.name) &&
              Composite(env[n]) ==>
                TypeString(n) in structs && structs[TypeString(n)] == Entity(n.pkg.value, n.name, env[n], depth)
      ensures forall k :: k in structs && k !in old(structs) ==> structs[k].depth >= depth
    {
      if n.pkg.Some? {
        assert Key(Some(n.pkg.value), n.name) == n;
        AddStruct(depth, n.pkg.value, n.name, env[n], pending);
        HandledGrows(env, rules.Current(), old(structs), structs);
        UnseenGrows(env, old(structs), structs);
      }
    }

    /** findStructs: addStruct at depth 0 for every type name declared at the package's scope. */
    method FindStructs(path: string, defs: seq<Def>)
      requires Valid() && ClosedExcept(env, rules.Current(), structs, {})
      requires forall d :: d in defs && IsSeed(d) ==> Key(Some(path), d.name) in env && Key(Some(path), d.name) in seeds
      modifies this
      ensures Valid() && Grows(old(structs), structs) && ClosedExcept(env, rules.Current(), structs, {})
      ensures forall d :: d in defs && IsSeed(d) ==> Handled(env, rules.Current(), structs, Key(Some(path), d.name))
      ensures (forall d :: d in defs && IsSeed(d) ==> Handled(env, rules.Current(), old(structs), Key(Some(path), d.name))) ==>
                structs == old(structs)
    {
      ghost var r := rules.Current();
      for i := 0 to |defs|
        invariant Valid() && Grows(old(structs), structs) && ClosedExcept(env, r, structs, {})
        invariant forall i' :: 0 <= i' < i && IsSeed(defs[i']) ==> Handled(env, r, structs, Key(Some(path), defs[i'].name))
        invariant (forall d :: d in defs && IsSeed(d) ==> Handled(env, r, old(structs), Key(Some(path), d.name))) ==>
                    structs == old(structs)
      {
        var def := defs[i];
        if def.TypeName? && def.packageLevel {
          var key := Key(Some(path), def.name);
          ghost var m0 := structs;
          AddStruct(0, path, def.name, env[key], {});
          HandledGrows(env, r, m0, structs);
        }
      }
    }

    /** The loop of main that runs findStructs on every imported package, in map order. */
    method FindAll(imported: Imported)
      requires Valid() && ClosedExcept(env, rules.Current(), structs, {}) && structs == map[]
      requires Loaded(env, imported) && seeds == SeedKeys(imported)
      modifies this
      ensures Valid() && ClosedExcept(env, rules.Current(), structs, {})
      ensures Seeded(env, rules.Current(), structs, imported)
      ensures structs == map[] <==> NothingToDraw(env, rules.Current(), imported)
    {
      ghost var r := rules.Current();
      var todo := imported.Keys;
      while todo != {}
        invariant todo <= imported.Keys
        invariant Valid() && ClosedExcept(env, r, structs, {})
        invariant forall p, d :: p in imported && p !in todo && d in imported[p] && IsSeed(d) ==>
                    Handled(env, r, structs, Key(Some(p), d.name))
        invariant NothingToDraw(env, r, imported) ==> structs == map[]
        decreases |todo|
      {
        var p :| p in todo;
        ghost var m0 := structs;
        assert forall d :: d in imported[p] && IsSeed(d) ==> Key(Some(p), d.name) in seeds;
        FindStructs(p, imported[p]);
        HandledGrows(env, r, m0, structs);
        todo := todo - {p};
      }
    }

    /** The innermost loop of main: one link per named type of a field that has an entity. */
    static method AppendNameLinks(m: Structs, from: string, field: string, names: seq<Key>,
                                  links0: seq<UseInfo>, nonOrphans0: set<string>)
      returns (links: seq<UseInfo>, nonOrphans: set<string>)
      requires nonOrphans0 == Endpoints(links0)
      ensures links == links0 + NameLinks(m, from, field, names)
      ensures nonOrphans == Endpoints(links)
    {
      links, nonOrphans := links0, nonOrphans0;
      for j := 0 to |names|
        invariant links == links0 + NameLinks(m, from, field, names[..j])
        invariant nonOrphans == Endpoints(links)
      {
        var fullName := TypeString(names[j]);
        NameLinksSnoc(m, from, field, names, j);
        if fullName in m {
          EndpointsAppend(links, UseInfo(from, field, fullName));
          nonOrphans := nonOrphans + {from, fullName};
          links := links + [UseInfo(from, field, fullName)];
        }
      }
      assert names[..|names|] == names;
    }

    /** The loop of main over the fields of one entity. */
    static method AppendEntityLinks(m: Structs, from: string, fields: seq<Field>, links0: seq<UseInfo>, nonOrphans0: set<string>)
      returns (links: seq<UseInfo>, nonOrphans: set<string>)
      requires nonOrphans0 == Endpoints(links0)
      ensures links == links0 + FieldLinks(m, from, fields)
      ensures nonOrphans == Endpoints(links)
    {
      links, nonOrphans := links0, nonOrphans0;
      for i := 0 to |fields|
        invariant links == links0 + FieldLinks(m, from, fields[..i])
        invariant nonOrphans == Endpoints(links)
      {
        var names := NamedTypes(fields[i].typ);
        links, nonOrphans := AppendNameLinks(m, from, fields[i].name, names, links, nonOrphans);
        FieldLinksSnoc(m, from, fields, i);
        ConcatAssoc(links0, FieldLinks(m, from, fields[..i]), NameLinks(m, from, fields[i].name, names));
      }
      assert fields[..|fields|] == fields;
    }

    /**
     * The link section of main: one useInfo per (entity, field, named type of the field that has
     * an entity), and both ends of every link marked non-orphan. Entities are visited in an
     * arbitrary order, as Go iterates maps; order is the one taken.
     */
    method Links() returns (links: seq<UseInfo>, nonOrphans: set<string>, ghost order: seq<string>)
      ensures Enumerates(order, structs.Keys)
      ensures links == LinksAlong(structs, order)
      ensures forall u :: u in links <==> IsLink(structs, u)
      ensures nonOrphans == Endpoints(links)
    {
      links, nonOrphans, order := [], {}, [];
      var todo := structs.Keys;
      while todo != {}
        invariant todo <= structs.Keys
        invariant Distinct(order)
        invariant forall k :: k in order <==> k in structs && k !in todo
        invariant links == LinksAlong(structs, order)
        invariant nonOrphans == Endpoints(links)
        decreases |todo|
      {
        var key :| key in todo;
        var str := structs[key];
        links, nonOrphans := AppendEntityLinks(structs, str.fullName, str.fields, links, nonOrphans);
        assert links == LinksAlong(structs, order + [key]) by {
          assert (order + [key])[..|order|] == order;
        }
        order := order + [key];
        todo := todo - {key};
      }
      forall u ensures u in links <==> IsLink(structs, u) {
        LinksAlongIsLink(structs, order, u);
      }
    }

    /**
     * The emission loop of main: each entity becomes orphan exactly when it is no endpoint, and is
     * written out when orphans are wanted or it is not one. Nothing else about the entities changes.
     */
    method ClassifyOrphans(nonOrphans: set<string>, includeOrphans: bool) returns (emitted: seq<string>)
      modifies this
      ensures SameButOrphan(old(structs), structs)
      ensures forall k :: k in structs ==> structs[k].orphan == (structs[k].fullName !in nonOrphans)
      ensures Distinct(emitted)
      ensures forall k :: k in emitted <==> k in structs && (includeOrphans || !structs[k].orphan)
    {
      var m;
      m, emitted := SetOrphans(structs, nonOrphans, includeOrphans);
      structs := m;
    }

    /** The loop of the emission section, over the entries of the map in an arbitrary order. */
    static method SetOrphans(m0: Structs, nonOrphans: set<string>, includeOrphans: bool)
      returns (m: Structs, emitted: seq<string>)
      ensures SameButOrphan(m0, m)
      ensures forall k :: k in m ==> m[k].orphan == (m[k].fullName !in nonOrphans)
      ensures Distinct(emitted)
      ensures forall k :: k in emitted <==> k in m && (includeOrphans || !m[k].orphan)
    {
      emitted := [];
      m := m0;
      var todo := m.Keys;
      while todo != {}
        invariant todo <= m.Keys
        invariant SameButOrphan(m0, m)
        invariant forall k :: k in m && k !in todo ==> m[k].orphan == (m[k].fullName !in nonOrphans)
        invariant Distinct(emitted)
        invariant forall k :: k in emitted <==> k in m && k !in todo && (includeOrphans || !m[k].orphan)
        decreases |todo|
      {
        var key :| key in todo;
        var str := m[key];
        str := str.(orphan := str.fullName !in nonOrphans);
        SetOrphan(m0, m, key, str.orphan);
        m := m[key := str];
        if includeOrphans || !str.orphan {
          DistinctSnoc(emitted, key);
          emitted := emitted + [key];
        }
        Sets.StrictSubsetCard(todo - {key}, todo, key);
        todo := todo - {key};
      }
    }
  }

  /** The packages the loader imported, each with the Defs of its type-checked files. */
  type Imported = map<string, seq<Def>>

  /** Every package-level type name of an imported package has a named type in env. */
  ghost predicate Loaded(env: Env, imported: Imported)
  {
    forall p, d :: p in imported && d in imported[p] && IsSeed(d) ==> Key(Some(p), d.name) in env
  }

  /** The named types of the package-level type names of the imported packages: where findStructs starts. */
  ghost function SeedKeys(imported: Imported): set<Key>
  {
    set p, d | p in imported && d in imported[p] && IsSeed(d) :: Key(Some(p), d.name)
  }

  /** Every package-level type name of an imported package has been handled. */
  ghost predicate Seeded(env: Env, r: Rules, m: Structs, imported: Imported)
  {
    forall p, d :: p in imported && d in imported[p] && IsSeed(d) ==> Handled(env, r, m, Key(Some(p), d.name))
  }

  /** No package-level type name of an imported package is an included struct or interface. */
  ghost predicate NothingToDraw(env: Env, r: Rules, imported: Imported)
    requires Loaded(env, imported)
  {
    forall p, d :: p in imported && d in imported[p] && IsSeed(d) ==>
      !Included(r, p, d.name) || !Composite(env[Key(Some(p), d.name)])
  }

  /** The rules main ends up with: the flags' patterns that compile, and the imported package paths. */
  function RulesFor(engine: Engine, includes: seq<string>, excludes: seq<string>, imported: Imported): Rules
  {
    Rules(engine, Accepted(engine, includes), Accepted(engine, excludes), imported.Keys)
  }

  /** What main writes to test.dot, before the templates render it. */
  datatype Diagram = Diagram(entities: Structs, links: seq<UseInfo>, emitted: seq<string>)

  /** The properties of the diagram main draws. */
  ghost predicate Drawn(env: Env, r: Rules, imported: Imported, includeOrphans: bool, d: Diagram)
  {
    && Sound(env, r, d.entities)
    && ClosedExcept(env, r, d.entities, {})
    && Seeded(env, r, d.entities, imported)
    && Justified(env, SeedKeys(imported), d.entities)
    && (exists order :: Enumerates(order, d.entities.Keys) && d.links == LinksAlong(d.entities, order))
    && (forall u :: u in d.links <==> IsLink(d.entities, u))
    && (forall k :: k in d.entities ==> d.entities[k].orphan == (k !in Endpoints(d.links)))
    && Distinct(d.emitted)
    && (forall k :: k in d.emitted <==> k in d.entities && (includeOrphans || !d.entities[k].orphan))
  }

  /** Setting the orphan flags after collecting the links yields a diagram with the properties of Drawn. */
  lemma DiagramDrawn(env: Env, r: Rules, imported: Imported, includeOrphans: bool, m0: Structs, m1: Structs,
                     links: seq<UseInfo>, nonOrphans: set<string>, order: seq<string>, emitted: seq<string>)
    requires Sound(env, r, m0) && ClosedExcept(env, r, m0, {}) && Seeded(env, r, m0, imported)
    requires Justified(env, SeedKeys(imported), m0)
    requires Enumerates(order, m0.Keys) && links == LinksAlong(m0, order)
    requires forall u :: u in links <==> IsLink(m0, u)
    requires nonOrphans == Endpoints(links)
    requires SameButOrphan(m0, m1)
    requires forall k :: k in m1 ==> m1[k].orphan == (m1[k].fullName !in nonOrphans)
    requires Distinct(emitted)
    requires forall k :: k in emitted <==> k in m1 && (includeOrphans || !m1[k].orphan)
    ensures Drawn(env, r, imported, includeOrphans, Diagram(m1, links, emitted))
  {
    OrphanFlagsIrrelevant(env, r, m0, m1);
    OrphanFlagsKeepOrigins(env, SeedKeys(imported), m0, m1);
    assert links == LinksAlong(m1, order) by {
      LinksAlongSameButOrphan(m0, m1, order);
    }
    assert forall u :: u in links <==> IsLink(m1, u) by {
      forall u ensures IsLink(m0, u) <==> IsLink(m1, u) {
        OrphanFlagsKeepLinks(m0, m1, u);
      }
    }
    assert forall k :: k in m1 ==> m1[k].orphan == (k !in Endpoints(links)) by {
      forall k | k in m1 ensures m1[k].fullName == k {
        assert Describes(env, r, k, m0[k]);
      }
    }
  }

  /** A full name determines the package path and the name, as a Go identifier holds no dot. */
  lemma FullNameInjective(p1: string, n1: string, p2: string, n2: string)
    requires '.' !in n1 && '.' !in n2 && FullName(p1, n1) == FullName(p2, n2)
    ensures p1 == p2 && n1 == n2
  {
    var s := FullName(p1, n1);
    assert forall j :: |p1| < j < |s| ==> s[j] == n1[j - |p1| - 1];
    assert forall j :: |p2| < j < |s| ==> s[j] == n2[j - |p2| - 1];
    assert s[|p1|] == '.' && s[|p2|] == '.';
    assert |p1| == |p2|;
    assert n1 == s[|p1| + 1..] && p1 == s[..|p1|];
    assert n2 == s[|p2| + 1..] && p2 == s[..|p2|];
  }

  /**
   * The entity main finds under name.String() for a named type with a package is the entity of
   * that very named type, as a Go identifier holds no dot.
   */
  lemma SoundLookup(env: Env, r: Rules, m: Structs, k: Key)
    requires Identifiers(env) && Sound(env, r, m)
    requires k.pkg.Some? && k in env && TypeString(k) in m
    ensures m[TypeString(k)].pkgPath == k.pkg.value && m[TypeString(k)].name == k.name
    ensures m[TypeString(k)].fields == ToFields(Members(env[k]))
  {
    var e := m[TypeString(k)];
    assert Describes(env, r, TypeString(k), e);
    FullNameInjective(e.pkgPath, e.name, k.pkg.value, k.name);
  }

  /** Two sound entries under the same key describe the same named type. */
  lemma SameDescription(env: Env, r: Rules, k: string, e1: StructType, e2: StructType)
    requires Identifiers(env) && Describes(env, r, k, e1) && Describes(env, r, k, e2)
    ensures e1.pkgPath == e2.pkgPath && e1.name == e2.name && e1.fields == e2.fields
  {
    FullNameInjective(e1.pkgPath, e1.name, e2.pkgPath, e2.name);
  }

  /**
   * An entity of a justified map is found by every closed, seeded discovery: by induction on its
   * depth, it is a seed, or a target of a struct entity one level up, which both maps hold.
   */
  lemma {:induction false} JustifiedEntityFound(env: Env, r: Rules, imported: Imported, m1: Structs, m2: Structs, k: string)
    requires Identifiers(env)
    requires Sound(env, r, m1) && Justified(env, SeedKeys(imported), m1)
    requires Sound(env, r, m2) && ClosedExcept(env, r, m2, {}) && Seeded(env, r, m2, imported)
    requires k in m1
    ensures k in m2
    decreases m1[k].depth
  {
    var e := m1[k];
    var key := Key(Some(e.pkgPath), e.name);
    assert Describes(env, r, k, e);
    assert EntityOrigin(env, SeedKeys(imported), m1, e);
    if e.depth == 0 {
      var p, d :| p in imported && d in imported[p] && IsSeed(d) && Key(Some(p), d.name) == key;
      assert Handled(env, r, m2, key);
    } else {
      var q :| q in m1 && IsStructEntity(env, m1[q]) && m1[q].depth == e.depth - 1 && Refers(m1[q].fields, key);
      JustifiedEntityFound(env, r, imported, m1, m2, q);
      assert Describes(env, r, q, m1[q]) && Describes(env, r, q, m2[q]);
      TargetFound(env, r, m1, m2, q, key);
    }
  }

  /** A target of a struct entity of one map is handled in a closed map that holds the same entity. */
  lemma TargetFound(env: Env, r: Rules, m1: Structs, m2: Structs, q: string, key: Key)
    requires Identifiers(env) && ClosedExcept(env, r, m2, {})
    requires q in m1 && q in m2 && Describes(env, r, q, m1[q]) && Describes(env, r, q, m2[q])
    requires IsStructEntity(env, m1[q]) && Refers(m1[q].fields, key)
    ensures Handled(env, r, m2, key)
  {
    SameDescription(env, r, q, m1[q], m2[q]);
    var i :| 0 <= i < |m2[q].fields| && key in NamedTypes(m2[q].fields[i].typ);
    assert key in Targets(m2[q].fields);
  }

  /**
   * The diagram is determined up to depths and iteration order: two diagrams drawn for the same
   * program and rules hold the same entities with the same fields.
   */
  lemma DrawnEntitiesDetermined(env: Env, r: Rules, imported: Imported, o1: bool, o2: bool, d1: Diagram, d2: Diagram)
    requires Identifiers(env)
    requires Drawn(env, r, imported, o1, d1) && Drawn(env, r, imported, o2, d2)
    ensures d1.entities.Keys == d2.entities.Keys
    ensures forall k :: k in d1.entities ==> d1.entities[k].fields == d2.entities[k].fields
  {
    forall k | k in d1.entities ensures k in d2.entities {
      JustifiedEntityFound(env, r, imported, d1.entities, d2.entities, k);
    }
    forall k | k in d2.entities ensures k in d1.entities {
      JustifiedEntityFound(env, r, imported, d2.entities, d1.entities, k);
    }
    forall k | k in d1.entities ensures d1.entities[k].fields == d2.entities[k].fields {
      assert Describes(env, r, k, d1.entities[k]) && Describes(env, r, k, d2.entities[k]);
      SameDescription(env, r, k, d1.entities[k], d2.entities[k]);
    }
  }

  /** The flag loops of main: addInclusion for each -include, then addExclusion for each -exclude. */
  method BuildRules(engine: Engine, includes: seq<string>, excludes: seq<string>, imported: Imported)
    returns (rules: RuleSet)
    ensures fresh(rules) && rules.Current() == RulesFor(engine, includes, excludes, imported)
  {
    rules := new RuleSet(engine, imported.Keys);
    for i := 0 to |includes|
      invariant rules.engine == engine && rules.imported == imported.Keys
      invariant rules.inclusions == Accepted(engine, includes[..i]) && rules.exclusions == []
    {
      var _ := rules.AddInclusion(includes[i]);
      assert includes[..i + 1][..i] == includes[..i];
    }
    for i := 0 to |excludes|
      invariant rules.engine == engine && rules.imported == imported.Keys
      invariant rules.inclusions == Accepted(engine, includes[..|includes|])
      invariant rules.exclusions == Accepted(engine, excludes[..i])
    {
      var _ := rules.AddExclusion(excludes[i]);
      assert excludes[..i + 1][..i] == excludes[..i];
    }
    assert includes[..|includes|] == includes && excludes[..|excludes|] == excludes;
  }

  /**
   * main, after flag parsing and package loading: the -include and -exclude flags become rules (a
   * pattern that does not compile is dropped), every imported package is scanned, and the run
   * aborts with "No structures to print" exactly when no package-level type name is an included
   * struct or interface; otherwise the links are collected and the orphan flags set.
   */
  method Run(engine: Engine, includes: seq<string>, excludes: seq<string>, includeOrphans: bool,
             env: Env, imported: Imported) returns (res: Result<Diagram, string>)
    requires Closed(env) && Loaded(env, imported)
    ensures res.Failure? <==> NothingToDraw(env, RulesFor(engine, includes, excludes, imported), imported)
    ensures res.Failure? ==> res.error == "No structures to print"
    ensures res.Success? ==> Drawn(env, RulesFor(engine, includes, excludes, imported), imported, includeOrphans, res.value)
  {
    var rules := BuildRules(engine, includes, excludes, imported);
    ghost var r := rules.Current();
    var g := new Graph(env, rules, SeedKeys(imported));
    g.FindAll(imported);
    if |g.structs| == 0 {
      assert g.structs == map[];
      return Failure("No structures to print");
    }
    var links, nonOrphans, order := g.Links();
    ghost var m0 := g.structs;
    var emitted := g.ClassifyOrphans(nonOrphans, includeOrphans);
    DiagramDrawn(env, r, imported, includeOrphans, m0, g.structs, links, nonOrphans, order, emitted);
    res := Success(Diagram(g.structs, links, emitted));
  }

  /** A type name declared at package scope; local type names are skipped. */
  ghost predicate IsSeed(d: Def)
  {
    d.TypeName? && d.packageLevel
  }
}
