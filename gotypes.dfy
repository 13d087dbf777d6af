/**
 * The part of go/types that the core inspects. A named type is referred to by its Key; an
 * environment maps each Key to its underlying type, so recursive Go types stay finite values.
 */
module GoTypes {
  import opened Wrappers

  /** A named type: its package path (None for predeclared types such as error) and its name. */
  datatype Key = Key(pkg: Option<string>, name: string)

  datatype GoType =
    | Named(key: Key)
    | Pointer(elem: GoType)
    | Array(elem: GoType)
    | Slice(elem: GoType)
    | Chan(elem: GoType)
    | Map(keyType: GoType, elem: GoType)
    | Struct(fields: seq<Var>)
    // the method set as go/types lists it: sorted, embedded interfaces' methods included
    | Interface(methods: seq<Var>)
    | Basic(basicName: string)
    | Signature(text: string)

  /** A struct field or an interface method: its name and its type. */
  datatype Var = Var(name: string, typ: GoType)

  type Env = map<Key, GoType>

  /** Every named type mentioned anywhere inside t. */
  ghost function KeysIn(t: GoType): set<Key>
  {
    match t
    case Named(k) => {k}
    case Pointer(e) => KeysIn(e)
    case Array(e) => KeysIn(e)
    case Slice(e) => KeysIn(e)
    case Chan(e) => KeysIn(e)
    case Map(k, e) => KeysIn(k) + KeysIn(e)
    case Struct(fs) => set i, k | 0 <= i < |fs| && k in KeysIn(fs[i].typ) :: k
    case Interface(ms) => set i, k | 0 <= i < |ms| && k in KeysIn(ms[i].typ) :: k
    case Basic(_) => {}
    case Signature(_) => {}
  }

  /** A loaded program: every named type mentioned by an underlying type has an underlying type too. */
  ghost predicate Closed(env: Env)
  {
    forall k :: k in env ==> KeysIn(env[k]) <= env.Keys
  }

  /** Go identifiers contain no dot, so neither does the name of a named type. */
  ghost predicate Identifiers(env: Env)
  {
    forall k :: k in env ==> '.' !in k.name
  }

  /** The underlying types for which the core creates an entity. */
  predicate Composite(t: GoType)
  {
    t.Struct? || t.Interface?
  }
}
