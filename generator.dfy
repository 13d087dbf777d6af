/**
 * The prototype generator of main.go: a second scanner that memoises struct types by name in a
 * map of mutable Struct objects, and reaches a field's struct through followType, which looks
 * through named, pointer, array and slice types.
 */
module Prototype {
  import opened Wrappers
  import GoTypes
  import Sets
  import opened Maps

  type GoType = GoTypes.GoType
  type Env = GoTypes.Env

  /** The types followType looks through. */
  predicate IsWrapper(t: GoType)
  {
    t.Named? || t.Pointer? || t.Array? || t.Slice?
  }

  /** Every struct field name anywhere inside t, anonymous struct types included. */
  ghost function FieldNames(t: GoType): set<string>
  {
    match t
    case Named(_) => {}
    case Pointer(e) => FieldNames(e)
    case Array(e) => FieldNames(e)
    case Slice(e) => FieldNames(e)
    case Chan(e) => FieldNames(e)
    case Map(k, e) => FieldNames(k) + FieldNames(e)
    case Struct(fs) =>
      (set i | 0 <= i < |fs| :: fs[i].name) + (set i, n | 0 <= i < |fs| && n in FieldNames(fs[i].typ) :: n)
    case Interface(ms) => set i, n | 0 <= i < |ms| && n in FieldNames(ms[i].typ) :: n
    case Basic(_) => {}
    case Signature(_) => {}
  }

  /** A field of a struct type contributes its name, its named types and its field names to the struct's. */
  lemma FieldOfStruct(fs: seq<GoTypes.Var>, i: nat)
    requires i < |fs|
    ensures GoTypes.KeysIn(fs[i].typ) <= GoTypes.KeysIn(GoTypes.Struct(fs))
    ensures fs[i].name in FieldNames(GoTypes.Struct(fs))
    ensures FieldNames(fs[i].typ) <= FieldNames(GoTypes.Struct(fs))
  {
  }

  /** The struct field names inside the underlying types of a program. */
  ghost function EnvFieldNames(env: Env): set<string>
  {
    set k, n | k in env && n in FieldNames(env[k]) :: n
  }

  /** One turn of followType's loop: a named type becomes its underlying type, the others their element type. */
  function Step(env: Env, t: GoType): (r: GoType)
    requires IsWrapper(t) && GoTypes.Closed(env) && GoTypes.KeysIn(t) <= env.Keys
    ensures GoTypes.KeysIn(r) <= env.Keys
    ensures FieldNames(r) <= FieldNames(t) + EnvFieldNames(env)
  {
    match t
    case Named(k) => env[k]
    case Pointer(e) => e
    case Array(e) => e
    case Slice(e) => e
  }

  /** The type followType holds after n turns of its loop, or earlier if it has stopped. */
  function Iterate(env: Env, t: GoType, n: nat): (r: GoType)
    requires GoTypes.Closed(env) && GoTypes.KeysIn(t) <= env.Keys
    ensures GoTypes.KeysIn(r) <= env.Keys
    ensures FieldNames(r) <= FieldNames(t) + EnvFieldNames(env)
    ensures n == 0 || !IsWrapper(t) ==> r == t
    decreases n
  {
    if n == 0 || !IsWrapper(t) then t else Iterate(env, Step(env, t), n - 1)
  }

  /** followType has stopped within n turns. */
  ghost predicate Settled(env: Env, t: GoType, n: nat)
    requires GoTypes.Closed(env) && GoTypes.KeysIn(t) <= env.Keys
  {
    !IsWrapper(Iterate(env, t, n))
  }

  /** While followType holds a wrapper, one more turn is one more Step. */
  lemma {:induction false} IterateSucc(env: Env, t: GoType, n: nat)
    requires GoTypes.Closed(env) && GoTypes.KeysIn(t) <= env.Keys
    requires IsWrapper(Iterate(env, t, n))
    ensures Iterate(env, t, n + 1) == Step(env, Iterate(env, t, n))
    decreases n
  {
    if n > 0 && IsWrapper(t) {
      IterateSucc(env, Step(env, t), n - 1);
    }
  }

  /** Once followType has stopped, further turns change nothing. */
  lemma {:induction false} IterateFixed(env: Env, t: GoType, a: nat, b: nat)
    requires GoTypes.Closed(env) && GoTypes.KeysIn(t) <= env.Keys
    requires Settled(env, t, a) && a <= b
    ensures Iterate(env, t, b) == Iterate(env, t, a)
    decreases a
  {
    if a > 0 && IsWrapper(t) {
      IterateFixed(env, Step(env, t), a - 1, b - 1);
    }
  }

  /** followType can stop with one result only. */
  lemma SettledUnique(env: Env, t: GoType, a: nat, b: nat)
    requires GoTypes.Closed(env) && GoTypes.KeysIn(t) <= env.Keys
    requires Settled(env, t, a) && Settled(env, t, b)
    ensures Iterate(env, t, a) == Iterate(env, t, b)
  {
    if a <= b {
      IterateFixed(env, t, a, b);
    } else {
      IterateFixed(env, t, b, a);
    }
  }

  /** What followType returns, for a type on which it stops. */
  ghost function Followed(env: Env, t: GoType): (r: GoType)
    requires GoTypes.Closed(env) && GoTypes.KeysIn(t) <= env.Keys
    requires exists n: nat :: Settled(env, t, n)
    ensures !IsWrapper(r)
    ensures !IsWrapper(t) ==> r == t
    ensures forall n: nat :: Settled(env, t, n) ==> Iterate(env, t, n) == r
    ensures GoTypes.KeysIn(r) <= env.Keys && FieldNames(r) <= FieldNames(t) + EnvFieldNames(env)
  {
    var n: nat :| Settled(env, t, n);
    SettledAgree(env, t, n);
    Iterate(env, t, n)
  }

  lemma SettledAgree(env: Env, t: GoType, n: nat)
    requires GoTypes.Closed(env) && GoTypes.KeysIn(t) <= env.Keys
    requires Settled(env, t, n)
    ensures forall m: nat :: Settled(env, t, m) ==> Iterate(env, t, m) == Iterate(env, t, n)
  {
    forall m | Settled(env, t, m) ensures Iterate(env, t, m) == Iterate(env, t, n) {
      SettledUnique(env, t, m, n);
    }
  }

  /** Applying followType to its own result returns that result. */
  lemma FollowedIdempotent(env: Env, t: GoType)
    requires GoTypes.Closed(env) && GoTypes.KeysIn(t) <= env.Keys
    requires exists n: nat :: Settled(env, t, n)
    ensures Settled(env, Followed(env, t), 0)
    ensures Followed(env, Followed(env, t)) == Followed(env, t)
  {
  }

  /**
   * followType: loops until the type is neither named, pointer, array nor slice. Channels and
   * maps are returned as they are. It terminates only on types on which the iteration settles.
   */
  method FollowType(env: Env, typ: GoType) returns (r: GoType)
    requires GoTypes.Closed(env) && GoTypes.KeysIn(typ) <= env.Keys
    requires exists n: nat :: Settled(env, typ, n)
    ensures r == Followed(env, typ)
  {
    ghost var bound: nat :| Settled(env, typ, bound);
    ghost var steps: nat := 0;
    r := typ;
    while true
      invariant steps <= bound && r == Iterate(env, typ, steps)
      decreases bound - steps
    {
      if IsWrapper(r) {
        assert steps < bound;
        IterateSucc(env, typ, steps);
      }
      match r {
        case Named(k) => r := env[k];
        case Pointer(e) => r := e;
        case Array(e) => r := e;
        case Slice(e) => r := e;
        case _ => return;
      }
      steps := steps + 1;
    }
  }

  /** A program on which followType stops for every named type: no definition such as `type L []L`. */
  ghost predicate Settles(env: Env)
  {
    GoTypes.Closed(env) && forall k :: k in env ==> exists n: nat :: Settled(env, GoTypes.Named(k), n)
  }

  /** On such a program followType stops for every type built from the program's named types. */
  lemma {:induction false} AllSettle(env: Env, t: GoType)
    requires Settles(env) && GoTypes.KeysIn(t) <= env.Keys
    ensures exists n: nat :: Settled(env, t, n)
  {
    match t
    case Named(k) =>
    case Pointer(e) =>
      AllSettle(env, e);
      var n: nat :| Settled(env, e, n);
      assert Iterate(env, t, n + 1) == Iterate(env, e, n);
      assert Settled(env, t, n + 1);
    case Array(e) =>
      AllSettle(env, e);
      var n: nat :| Settled(env, e, n);
      assert Iterate(env, t, n + 1) == Iterate(env, e, n);
      assert Settled(env, t, n + 1);
    case Slice(e) =>
      AllSettle(env, e);
      var n: nat :| Settled(env, e, n);
      assert Iterate(env, t, n + 1) == Iterate(env, e, n);
      assert Settled(env, t, n + 1);
    case _ =>
      assert Settled(env, t, 0);
  }

  /** followType never stops on `type L []L`: it alternates between L and []L. */
  lemma {:induction false} SelfSliceNeverSettles(k: GoTypes.Key, n: nat)
    ensures var env := map[k := GoTypes.Slice(GoTypes.Named(k))];
            GoTypes.Closed(env) && !Settled(env, GoTypes.Named(k), n)
  {
    var env := map[k := GoTypes.Slice(GoTypes.Named(k))];
    assert GoTypes.KeysIn(env[k]) == {k};
    SelfSliceCycle(env, k, GoTypes.Named(k), n);
  }

  lemma {:induction false} SelfSliceCycle(env: Env, k: GoTypes.Key, t: GoType, n: nat)
    requires env == map[k := GoTypes.Slice(GoTypes.Named(k))]
    requires t == GoTypes.Named(k) || t == GoTypes.Slice(GoTypes.Named(k))
    ensures GoTypes.Closed(env)
    ensures Iterate(env, t, n) == GoTypes.Named(k) || Iterate(env, t, n) == GoTypes.Slice(GoTypes.Named(k))
    decreases n
  {
    assert GoTypes.KeysIn(env[k]) == {k};
    if n > 0 {
      SelfSliceCycle(env, k, Step(env, t), n - 1);
    }
  }

  /** A loaded program: the objects of each package's scope with their types, and the named types. */
  datatype Program = Program(scopes: map<string, map<string, GoType>>, env: Env)

  /** The types in the program are built from its named types, and followType stops on each of them. */
  ghost predicate WellFormed(p: Program)
  {
    && Settles(p.env)
    && forall path, name :: path in p.scopes && name in p.scopes[path] ==>
         GoTypes.KeysIn(p.scopes[path][name]) <= p.env.Keys
  }

  /** A field of a scanned struct; typ is the field's type, standing for its rendered typeString. */
  datatype Field = Field(name: string, typ: GoType, typeRef: Struct?)

  class Struct {
    const name: string
    var fields: seq<Field>

    constructor (name: string)
      ensures this.name == name && fields == []
    {
      this.name := name;
      fields := [];
    }

    /** A field's typeRef, when set, is the struct stored under the field's name in m. */
    ghost predicate RefsIn(m: map<string, Struct>)
      reads this
    {
      forall i :: 0 <= i < |fields| && fields[i].typeRef != null ==>
        fields[i].name in m && m[fields[i].name] == fields[i].typeRef
    }

    lemma RefsInGrows(m0: map<string, Struct>, m1: map<string, Struct>)
      requires RefsIn(m0) && Grows(m0, m1)
      ensures RefsIn(m1)
    {
    }

    /** One field per field of the struct type, with the same names and types, in order. */
    ghost predicate Mirrors(fs: seq<GoTypes.Var>)
      reads this
    {
      MirrorsPrefix(fields, fs, |fs|)
    }
  }

  /** fields holds one field for each of the first n fields of fs, with the same names and types. */
  ghost predicate MirrorsPrefix(fields: seq<Field>, fs: seq<GoTypes.Var>, n: nat)
  {
    n <= |fs| && |fields| == n && forall i :: 0 <= i < n ==> fields[i].name == fs[i].name && fields[i].typ == fs[i].typ
  }

  class Generator {
    var prog: Option<Program>
    var structs: map<string, Struct>

    /**
     * Each struct is stored under its own name, and a field's typeRef, when set, is the struct
     * stored under the field's name.
     */
    ghost predicate Valid()
      reads this, structs.Values
    {
      && (prog.Some? ==> WellFormed(prog.value))
      && (forall k :: k in structs ==> structs[k].name == k && structs[k].RefsIn(structs))
    }

    constructor ()
      ensures prog == None && structs == map[] && Valid()
    {
      prog := None;
      structs := map[];
    }

    /** Load: the loader's result becomes the program (none on error), and the struct map is reset. */
    method Load(loaded: Result<Program, string>) returns (err: Option<string>)
      requires loaded.Success? ==> WellFormed(loaded.value)
      modifies this
      ensures prog == (if loaded.Success? then Some(loaded.value) else None)
      ensures err == (if loaded.Success? then None else Some(loaded.error))
      ensures structs == map[] && Valid()
    {
      prog := if loaded.Success? then Some(loaded.value) else None;
      structs := map[];
      err := if loaded.Success? then None else Some(loaded.error);
    }

    /**
     * scan: a name already in the map returns its struct and changes nothing. Otherwise nil is
     * returned; a struct type gets a fresh Struct stored under the name before its fields are
     * scanned, each under the field's own name, and any other type stores nothing. The names in
     * the map afterwards are exactly ScanKeys.
     */
    method Scan(typeName: string, typ: GoType, ghost universe: set<string>) returns (r: Struct?)
      requires Valid() && prog.Some? && GoTypes.KeysIn(typ) <= prog.value.env.Keys
      requires {typeName} + FieldNames(typ) + EnvFieldNames(prog.value.env) <= universe
      modifies this
      decreases |universe - structs.Keys|, 3
      ensures Valid() && prog == old(prog) && Grows(old(structs), structs)
      ensures forall k :: k in structs && k !in old(structs) ==> fresh(structs[k])
      ensures AddsOnly(old(structs), structs, {typeName} + FieldNames(typ) + EnvFieldNames(prog.value.env))
      ensures typ.Struct? ==> typeName in structs
      ensures typeName in old(structs) ==> r == old(structs)[typeName] && structs == old(structs)
      ensures typeName !in old(structs) ==> r == null
      ensures typeName !in old(structs) && !typ.Struct? ==> structs == old(structs)
      ensures structs.Keys == ScanKeys(prog.value.env, old(structs).Keys, typeName, typ)
      ensures typeName !in old(structs) && typ.Struct? ==>
                && structs[typeName].Mirrors(typ.fields)
                && Scanned(prog.value.env, structs[typeName].fields, typ.fields, old(structs).Keys + {typeName}, structs)
    {
      if typeName in structs {
        return structs[typeName];
      }
      if typ.Struct? {
        ScanStruct(typeName, typ.fields, universe);
      }
      return null;
    }

    /** The struct case of scan: store a fresh Struct under the name, then scan its fields. */
    method ScanStruct(typeName: string, fs: seq<GoTypes.Var>, ghost universe: set<string>)
      requires Valid() && prog.Some? && GoTypes.KeysIn(GoTypes.Struct(fs)) <= prog.value.env.Keys
      requires {typeName} + FieldNames(GoTypes.Struct(fs)) + EnvFieldNames(prog.value.env) <= universe
      requires typeName !in structs
      modifies this
      decreases |universe - structs.Keys|, 2
      ensures Valid() && prog == old(prog) && Grows(old(structs), structs)
      ensures forall k :: k in structs && k !in old(structs) ==> fresh(structs[k])
      ensures AddsOnly(old(structs), structs, {typeName} + FieldNames(GoTypes.Struct(fs)) + EnvFieldNames(prog.value.env))
      ensures typeName in structs && structs[typeName].Mirrors(fs)
      ensures Scanned(prog.value.env, structs[typeName].fields, fs, old(structs).Keys + {typeName}, structs)
    {
      var s := Insert(typeName);
      Sets.StrictSubsetCard(universe - structs.Keys, universe - old(structs).Keys, typeName);
      ghost var m1 := structs;
      assert m1.Keys == old(structs).Keys + {typeName};
      ScanFields(s, fs, FieldNames(GoTypes.Struct(fs)) + EnvFieldNames(prog.value.env), universe,
                 |universe - old(structs).Keys|);
      GrowsTrans(old(structs), m1, structs);
      ScannedMirrors(prog.value.env, s.fields, fs, m1.Keys, structs);
    }

    /** The insertion of scan: a fresh Struct with no fields, stored under its name before anything else. */
    method Insert(typeName: string) returns (s: Struct)
      requires Valid() && typeName !in structs
      modifies this
      ensures fresh(s) && s.name == typeName && s.fields == []
      ensures structs == old(structs)[typeName := s] && prog == old(prog) && Valid()
    {
      s := new Struct(typeName);
      structs := structs[typeName := s];
      forall k | k in structs ensures structs[k].name == k && structs[k].RefsIn(structs) {
        if k != typeName {
          structs[k].RefsInGrows(old(structs), structs);
        }
      }
    }

    /**
     * The field loop of scan: one field per struct field, its typeRef from scanning the field's
     * type under the field's name.
     */
    method ScanFields(s: Struct, fs: seq<GoTypes.Var>, ghost names: set<string>, ghost universe: set<string>,
                      ghost budget: nat)
      requires Valid() && prog.Some? && s.name in structs && structs[s.name] == s && s.fields == []
      requires GoTypes.KeysIn(GoTypes.Struct(fs)) <= prog.value.env.Keys
      requires names == FieldNames(GoTypes.Struct(fs)) + EnvFieldNames(prog.value.env) && names <= universe
      requires |universe - structs.Keys| < budget
      modifies this, s
      decreases budget, 1
      ensures Valid() && prog == old(prog) && Grows(old(structs), structs)
      ensures forall k :: k in structs && k !in old(structs) ==> fresh(structs[k])
      ensures AddsOnly(old(structs), structs, names)
      ensures Scanned(prog.value.env, s.fields, fs, old(structs).Keys, structs)
    {
      for i := 0 to |fs|
        invariant Valid() && prog == old(prog) && Grows(old(structs), structs)
        invariant s.name in structs && structs[s.name] == s
        invariant forall k :: k in structs && k !in old(structs) ==> fresh(structs[k])
        invariant |universe - structs.Keys| < budget
        invariant ScannedPrefix(prog.value.env, s.fields, fs, old(structs).Keys, structs, i)
      {
        ScanField(s, fs, i, names, universe, budget, old(structs).Keys);
      }
      assert structs.Keys <= old(structs).Keys + names;
    }

    /**
     * One round of the field loop: follow the field's type, scan it under the field's name, and
     * append the field, whose typeRef is what the map held under that name beforehand, or nil.
     */
    method ScanField(s: Struct, fs: seq<GoTypes.Var>, i: nat, ghost names: set<string>, ghost universe: set<string>,
                     ghost budget: nat, ghost start: set<string>)
      requires Valid() && prog.Some? && s.name in structs && structs[s.name] == s
      requires i < |fs|
      requires ScannedPrefix(prog.value.env, s.fields, fs, start, structs, i)
      requires GoTypes.KeysIn(GoTypes.Struct(fs)) <= prog.value.env.Keys
      requires names == FieldNames(GoTypes.Struct(fs)) + EnvFieldNames(prog.value.env) && names <= universe
      requires |universe - structs.Keys| < budget
      modifies this, s
      decreases budget, 0
      ensures Valid() && prog == old(prog) && Grows(old(structs), structs)
      ensures s.name in structs && structs[s.name] == s
      ensures forall k :: k in structs && k !in old(structs) ==> fresh(structs[k])
      ensures AddsOnly(old(structs), structs, names)
      ensures |universe - structs.Keys| < budget
      ensures s.fields == old(s.fields) + [Field(fs[i].name, fs[i].typ, RefUnder(old(structs), fs[i].name, old(structs).Keys))]
      ensures ToStruct(prog.value.env, fs[i].typ) ==> fs[i].name in structs
      ensures structs.Keys == ScanKeys(prog.value.env, old(structs).Keys, fs[i].name, FieldFollowed(prog.value.env, fs, i))
      ensures ScannedPrefix(prog.value.env, s.fields, fs, start, structs, i + 1)
    {
      var env := prog.value.env;
      var fieldType := fs[i].typ;
      var fieldName := fs[i].name;
      FieldOfStruct(fs, i);
      AllSettle(env, fieldType);
      var followed := FollowType(env, fieldType);
      ghost var before := s.fields;
      var ref := Scan(fieldName, followed, universe);
      assert {fieldName} + FieldNames(followed) + EnvFieldNames(env) <= FieldNames(GoTypes.Struct(fs)) + EnvFieldNames(env);
      AddsOnlyWithin(old(structs), structs, {fieldName} + FieldNames(followed) + EnvFieldNames(env), names);
      Sets.SubsetCard(universe - structs.Keys, universe - old(structs).Keys);
      ScannedStep(env, before, Field(fieldName, fieldType, ref), fs, start, old(structs), structs, i);
      AppendField(s, Field(fieldName, fieldType, ref));
    }

    /** The append of scan: s stays consistent with the map when the new field's typeRef is. */
    method AppendField(s: Struct, f: Field)
      requires Valid() && s.name in structs && structs[s.name] == s
      requires f.typeRef != null ==> f.name in structs && structs[f.name] == f.typeRef
      modifies s
      ensures s.fields == old(s.fields) + [f] && Valid()
    {
      s.fields := s.fields + [f];
      assert s.RefsIn(structs);
    }

    /**
     * ScanType: panics when the package is not loaded or its scope has no such object; otherwise
     * scans the object's type, after followType, under the object's name.
     */
    method ScanType(pkg: string, typ: string) returns (panic: Option<string>)
      requires Valid() && prog.Some?
      modifies this
      ensures Valid() && prog == old(prog) && Grows(old(structs), structs)
      ensures pkg !in prog.value.scopes ==>
                panic == Some("Package " + pkg + " not loaded") && structs == old(structs)
      ensures pkg in prog.value.scopes && typ !in prog.value.scopes[pkg] ==>
                panic == Some("Type " + pkg + "." + typ + " not loaded") && structs == old(structs)
      ensures pkg in prog.value.scopes && typ in prog.value.scopes[pkg] ==>
                && panic == None
                && Followable(prog.value.env, prog.value.scopes[pkg][typ])
                && var t := Followed(prog.value.env, prog.value.scopes[pkg][typ]);
                   && structs.Keys == ScanKeys(prog.value.env, old(structs).Keys, typ, t)
                   && if typ in old(structs) || !t.Struct? then structs == old(structs)
                      else
                        && typ in structs && fresh(structs[typ]) && structs[typ].Mirrors(t.fields)
                        && Scanned(prog.value.env, structs[typ].fields, t.fields, old(structs).Keys + {typ}, structs)
    {
      var p := prog.value;
      if pkg !in p.scopes {
        return Some("Package " + pkg + " not loaded");
      }
      if typ !in p.scopes[pkg] {
        return Some("Type " + pkg + "." + typ + " not loaded");
      }
      var objType := p.scopes[pkg][typ];
      AllSettle(p.env, objType);
      var t := FollowType(p.env, objType);
      var _ := Scan(typ, t, {typ} + FieldNames(t) + EnvFieldNames(p.env));
      return None;
    }
  }

  /** followType stops on t, a type built from the named types of a closed program. */
  ghost predicate Followable(env: Env, t: GoType)
  {
    GoTypes.Closed(env) && GoTypes.KeysIn(t) <= env.Keys && exists n: nat :: Settled(env, t, n)
  }

  /** followType stops on t with a struct type: scan stores a Struct for it. */
  ghost predicate ToStruct(env: Env, t: GoType)
  {
    Followable(env, t) && Followed(env, t).Struct?
  }

  /** Every key m1 adds to m0 is one of names. */
  ghost predicate AddsOnly<V>(m0: map<string, V>, m1: map<string, V>, names: set<string>)
  {
    forall k :: k in m1 && k !in m0 ==> k in names
  }

  lemma AddsOnlyWithin<V>(m0: map<string, V>, m1: map<string, V>, a: set<string>, b: set<string>)
    requires AddsOnly(m0, m1, a) && a <= b
    ensures AddsOnly(m0, m1, b)
  {
  }

  /** What scan returns for name when the map holds the names in keys: m's struct, or nil if it held none. */
  function RefUnder(m: map<string, Struct>, name: string, keys: set<string>): Struct?
    requires keys <= m.Keys
  {
    if name in keys then m[name] else null
  }

  /** The names scan(name, t) can add: the name itself and the field names of t or of the program. */
  ghost function ScanNames(env: Env, name: string, t: GoType): set<string>
  {
    {name} + FieldNames(t) + EnvFieldNames(env)
  }

  /**
   * The names in the map after scan(name, t) on a map holding keys, t being a followed type: a
   * name already present or a type other than a struct adds nothing; a struct adds its name and
   * then, field by field, what scanning the field's followed type under the field's name adds.
   */
  ghost function ScanKeys(env: Env, keys: set<string>, name: string, t: GoType): (r: set<string>)
    requires Settles(env) && GoTypes.KeysIn(t) <= env.Keys
    ensures keys <= r <= keys + ScanNames(env, name, t)
    ensures t.Struct? ==> name in r
    decreases |ScanNames(env, name, t) - keys|, 0, 0
  {
    if name in keys || !t.Struct? then keys
    else
      Sets.StrictSubsetCard(FieldNames(t) + EnvFieldNames(env) - (keys + {name}), ScanNames(env, name, t) - keys, name);
      FieldsKeys(env, keys + {name}, t.fields, |t.fields|)
  }

  /** The names in the map after the first n fields of fs are scanned, starting from a map holding keys. */
  ghost function FieldsKeys(env: Env, keys: set<string>, fs: seq<GoTypes.Var>, n: nat): (r: set<string>)
    requires Settles(env) && GoTypes.KeysIn(GoTypes.Struct(fs)) <= env.Keys && n <= |fs|
    ensures keys <= r <= keys + FieldNames(GoTypes.Struct(fs)) + EnvFieldNames(env)
    decreases |FieldNames(GoTypes.Struct(fs)) + EnvFieldNames(env) - keys|, 1, n
  {
    if n == 0 then keys
    else
      var k := FieldsKeys(env, keys, fs, n - 1);
      var t := FieldFollowed(env, fs, n - 1);
      Sets.SubsetCard(ScanNames(env, fs[n - 1].name, t) - k, FieldNames(GoTypes.Struct(fs)) + EnvFieldNames(env) - keys);
      ScanKeys(env, k, fs[n - 1].name, t)
  }

  /** The followed type of field i of a struct type: scanning it adds only names of the struct type or the program. */
  ghost function FieldFollowed(env: Env, fs: seq<GoTypes.Var>, i: nat): (t: GoType)
    requires Settles(env) && GoTypes.KeysIn(GoTypes.Struct(fs)) <= env.Keys && i < |fs|
    ensures Followable(env, fs[i].typ) && t == Followed(env, fs[i].typ)
    ensures GoTypes.KeysIn(t) <= env.Keys
    ensures ScanNames(env, fs[i].name, t) <= FieldNames(GoTypes.Struct(fs)) + EnvFieldNames(env)
  {
    FieldOfStruct(fs, i);
    AllSettle(env, fs[i].typ);
    Followed(env, fs[i].typ)
  }

  /**
   * fields are the first n fields of fs, scanned in order from a map holding start, and m.Keys
   * holds what those scans left. Each field has the name and type of its struct field, and as
   * typeRef the struct m holds under that name if the map held one when the field was scanned,
   * nil otherwise; each field whose type follows to a struct type has its name in m.
   */
  ghost predicate ScannedPrefix(env: Env, fields: seq<Field>, fs: seq<GoTypes.Var>, start: set<string>,
                                m: map<string, Struct>, n: nat)
  {
    && Settles(env) && GoTypes.KeysIn(GoTypes.Struct(fs)) <= env.Keys
    && |fields| == n <= |fs|
    && m.Keys == FieldsKeys(env, start, fs, n)
    && (forall j {:trigger fields[j]} :: 0 <= j < n ==>
          && FieldsKeys(env, start, fs, j) <= m.Keys
          && fields[j] == Field(fs[j].name, fs[j].typ, RefUnder(m, fs[j].name, FieldsKeys(env, start, fs, j))))
    && (forall j :: 0 <= j < n && ToStruct(env, fs[j].typ) ==> fs[j].name in m)
  }

  /** Every field of fs was scanned: ScannedPrefix over all of them. */
  ghost predicate Scanned(env: Env, fields: seq<Field>, fs: seq<GoTypes.Var>, start: set<string>,
                          m: map<string, Struct>)
  {
    ScannedPrefix(env, fields, fs, start, m, |fs|)
  }

  lemma ScannedMirrors(env: Env, fields: seq<Field>, fs: seq<GoTypes.Var>, start: set<string>,
                       m: map<string, Struct>)
    requires Scanned(env, fields, fs, start, m)
    ensures MirrorsPrefix(fields, fs, |fs|)
  {
  }

  /** Scanning field n from m0 into m1 extends the scanned prefix by one. */
  lemma ScannedStep(env: Env, fields: seq<Field>, f: Field, fs: seq<GoTypes.Var>, start: set<string>,
                    m0: map<string, Struct>, m1: map<string, Struct>, n: nat)
    requires |fields| == n < |fs|
    requires ScannedPrefix(env, fields, fs, start, m0, n) && Grows(m0, m1)
    requires f == Field(fs[n].name, fs[n].typ, RefUnder(m0, fs[n].name, m0.Keys))
    requires m1.Keys == ScanKeys(env, m0.Keys, fs[n].name, FieldFollowed(env, fs, n))
    requires ToStruct(env, fs[n].typ) ==> fs[n].name in m1
    ensures ScannedPrefix(env, fields + [f], fs, start, m1, n + 1)
  {
    var fields' := fields + [f];
    assert FieldsKeys(env, start, fs, n + 1) == m1.Keys;
    forall j | 0 <= j < n + 1
      ensures FieldsKeys(env, start, fs, j) <= m1.Keys
      ensures fields'[j] == Field(fs[j].name, fs[j].typ, RefUnder(m1, fs[j].name, FieldsKeys(env, start, fs, j)))
    {
      var keys := FieldsKeys(env, start, fs, j);
      if j < n {
        assert fields'[j] == fields[j];
        assert keys <= m0.Keys && fields[j] == Field(fs[j].name, fs[j].typ, RefUnder(m0, fs[j].name, keys));
      } else {
        assert keys == m0.Keys;
      }
      RefUnderGrows(m0, m1, fs[j].name, keys);
    }
  }

  /** A map that only grows returns the same struct for a name it held. */
  lemma RefUnderGrows(m0: map<string, Struct>, m1: map<string, Struct>, name: string, keys: set<string>)
    requires keys <= m0.Keys && Grows(m0, m1)
    ensures keys <= m1.Keys && RefUnder(m1, name, keys) == RefUnder(m0, name, keys)
  {
  }

  /** `struct { B struct{ C struct{} }; C struct{} }`: scanning field B already stores a struct under "C". */
  function NestedFields(): seq<GoTypes.Var>
  {
    [GoTypes.Var("B", GoTypes.Struct([GoTypes.Var("C", GoTypes.Struct([]))])), GoTypes.Var("C", GoTypes.Struct([]))]
  }

  /** `struct { B struct{}; C struct{} }`: nothing is stored under "C" before field C is scanned. */
  function SiblingFields(): seq<GoTypes.Var>
  {
    [GoTypes.Var("B", GoTypes.Struct([])), GoTypes.Var("C", GoTypes.Struct([]))]
  }

  /** A later field is linked to the struct an earlier field's scan stored under its name. */
  lemma LaterFieldLinkedByEarlierScan(fields: seq<Field>, m: map<string, Struct>)
    requires Scanned(map[], fields, NestedFields(), {"T"}, m)
    ensures "C" in m && fields[1].typeRef == m["C"]
  {
    var env: Env := map[];
    var fs := NestedFields();
    var inner := [GoTypes.Var("C", GoTypes.Struct([]))];
    assert ScanKeys(env, {"T", "B"}, "C", GoTypes.Struct([])) == {"T", "B", "C"} by {
      assert {"T", "B"} + {"C"} == {"T", "B", "C"};
    }
    assert FieldFollowed(env, inner, 0) == GoTypes.Struct([]);
    assert FieldsKeys(env, {"T", "B"}, inner, 1) == {"T", "B", "C"};
    assert ScanKeys(env, {"T"}, "B", GoTypes.Struct(inner)) == {"T", "B", "C"} by {
      assert {"T"} + {"B"} == {"T", "B"};
    }
    assert FieldFollowed(env, fs, 0) == GoTypes.Struct(inner);
    assert FieldsKeys(env, {"T"}, fs, 1) == {"T", "B", "C"};
    assert fields[1] == Field("C", GoTypes.Struct([]), RefUnder(m, "C", FieldsKeys(env, {"T"}, fs, 1)));
  }

  /** A field's own scan does not link it: scan returns nil for a name it has just stored. */
  lemma FieldNotLinkedToOwnScan(fields: seq<Field>, m: map<string, Struct>)
    requires Scanned(map[], fields, SiblingFields(), {"T"}, m)
    ensures "C" in m && fields[1].typeRef == null
  {
    var env: Env := map[];
    var fs := SiblingFields();
    assert FieldFollowed(env, fs, 0) == GoTypes.Struct([]);
    assert FieldsKeys(env, {"T"}, fs, 1) == {"T", "B"};
    assert FieldFollowed(env, fs, 1) == GoTypes.Struct([]);
    assert FieldsKeys(env, {"T"}, fs, 2) == {"T", "B", "C"};
    assert fields[1] == Field("C", GoTypes.Struct([]), RefUnder(m, "C", FieldsKeys(env, {"T"}, fs, 1)));
  }
}
