# typegraph, modelled in Dafny

typegraph draws a diagram of the struct and interface types of a Go program. Each type becomes an
entity and each field that refers to another entity's type becomes a link. It has three parts, and
each has its own module here:

- **Criteria engine** (`inclusions.dfy`, module `Inclusions`; from `inclusions.go`). A rule
  `pkgPattern:TypePattern` is split on its last `:`. An empty half leaves that pattern nil. A
  criteria matches when each pattern that is present finds the whole input as its leftmost match.
  `include` decides in a fixed order: any matching exclusion wins, then a loaded root package, then
  any matching inclusion. The globals `inclusions` and `exclusions` are the fields of class
  `RuleSet`. The regular-expression engine is left uninterpreted as the datatype `Engine`, which
  holds whether a pattern compiles and `FindString`.
- **Discovery and graph builder** (`typegraph.dfy`, module `TypeGraph`; from `typegraph.go`).
  - The global `structs` map is the field of class `Graph`. `findStructs`, `addStruct` and `follow`
    are its methods.
  - An entity is stored before its fields are followed, which makes recursive types terminate. The
    proof measures this with the number of named types that still have no entity.
  - `Graph.Links` and `Graph.ClassifyOrphans` are the link and orphan sections of `main`.
  - `Run` is `main` after flag parsing and loading. It builds the rules from the flags, scans every
    imported package, aborts with "No structures to print" when nothing was found, and otherwise
    returns the entities, the links and the names written out.
  - `Drawn` states what is proved about that result. Every entity describes an included struct
    or interface of the program (`Sound`). Every entity has an origin (`Justified`): it is a
    package-level type name at depth 0, or a named type in a field of a struct entity one level
    up. Every named type reached from a struct entity's fields is handled (`ClosedExcept`), and
    so is every package-level type name (`Seeded`). `DrawnEntitiesDetermined` shows that these
    pin the entities down: two such diagrams hold the same entities with the same fields.
  - Go map iteration order is not fixed, so the order is a ghost output, and
    `LinksOrderIndependent` shows that the multiset of links does not depend on it. Depths can
    depend on it: a package-level type first reached through another type's field gets one more
    than the depth of the struct whose field reaches it first.
- **Prototype generator** (`generator.dfy`, module `Prototype`; from `main.go`).
  - `generator` is class `Generator`. Its `Struct` objects are a class too, because a field's
    `typeRef` aliases the struct stored in the map.
  - `scan` memoises by name, so a field's `typeRef` is the struct the map already held under the
    field's name when the field was scanned, or nil; the struct that the field's own scan creates
    is not linked. `ScanKeys` and `FieldsKeys` define, independently of the methods, the names
    the map holds after a scan and after each field, and `Scanned` ties each field's `typeRef` to
    them. `LaterFieldLinkedByEarlierScan` and `FieldNotLinkedToOwnScan` show both outcomes.
  - `followType` unwraps named, pointer, array and slice types in a loop. The model relates it to
    `Iterate` (n turns of the loop) and `Followed` (where the loop stops).
  - `followType` never stops on legal programs such as `type L []L` (`SelfSliceNeverSettles`). The
    generator therefore requires a loaded program on which it stops for every named type
    (`Settles`, `AllSettle`).

The program's types are the datatype `GoTypes.GoType`. A named type is `Named(Key(pkg, name))`, and
a map `Env` gives each key its underlying type, so recursive Go types stay finite values. `Closed`
says every key an underlying type mentions is in the map.

The names of named types are Go identifiers, which hold no dot (`Identifiers`). The lemmas that
use this say so; the operations do not need it.

`scenarios.dfy` states what `Run`'s contract gives for two small programs. In the first, `Order`
has a `Customer` field; this gives two entities, one link and no orphans. In the second, an empty
`Report` gives one orphan entity, which is written out only when orphans are wanted. The same
package also declares a struct type `Hidden` inside a function; it gets no entity.

Some behaviours of the code are easy to miss:

- **A rule that does not compile is dropped.** typegraph.go:79-84 discards the error returned by
  `addInclusion`/`addExclusion`, so the run goes on without that rule instead of aborting
  (`MalformedRuleIgnored`, `BuildRules`, `Run`).
- **Matching is not anchoring.** A pattern matches when `FindString(input) == input`. With Go's
  leftmost-first semantics, `a|ab` does not match `ab`.
- **The abort depends only on discovery.** It happens exactly when discovery found no entity. A
  diagram whose entities are all orphans and hidden is still drawn, with nothing in it.
- **`main.go` cannot be built with `typegraph.go`.** Both declare `main`, so the generator is
  modelled on its own.

## Model

| member | source | states |
|---|---|---|
| Strings.LastIndexOf | inclusions.go:80 | the result is -1 exactly when the character does not occur, and otherwise the position of its last occurrence |
| Strings.PkgName | typegraph.go:206-207 | the package name is the part of the path after its last `/` (the whole path when there is none); it holds no `/`, and the path ends with it |
| Inclusions.SplitRule | inclusions.go:80-85 | without `:` the whole rule is the package pattern and the type pattern is empty; otherwise the rule is package pattern + `:` + type pattern, with no `:` in the type pattern |
| Inclusions.CompileCriteria | inclusions.go:71-102 | the criteria keeps the rule text; an error is reported exactly when a non-empty half does not compile, and it names a half that does not; on success each non-empty half becomes a pattern and each empty half stays nil |
| Inclusions.MatchesHalves | inclusions.go:57-69 | the two halves are checked independently: a criteria matches exactly when its package half alone and its type half alone match, and a criteria with both halves nil matches everything |
| Inclusions.IncludedMonotone | inclusions.go:36-55 | one more inclusion never removes a type, one more exclusion never adds one and removes every type it matches, and in a loaded root package exactly the types no exclusion matches are included |
| Inclusions.RuleSet.constructor | inclusions.go:15-16 | both rule lists start empty |
| Inclusions.CompiledRuleMatches | inclusions.go:57-69 | a compiled rule matches exactly when each non-empty half's leftmost match is the whole package or type name |
| Inclusions.EmptyHalfUnconstrained | inclusions.go:87-99 | an empty half makes the match independent of that name: `pkg:` constrains only the package, `:T` only the type |
| Inclusions.MalformedRuleIgnored | typegraph.go:79-84 | a rule text that does not compile, anywhere in the flag list, leaves the accepted criteria as they are without it |
| Inclusions.RuleSet.AddInclusion | inclusions.go:18-25 | on success exactly one criteria is appended to the inclusions; on a compile error they are unchanged and the error is returned; the exclusions never change |
| Inclusions.RuleSet.AddExclusion | inclusions.go:27-34 | the same for the exclusions, leaving the inclusions unchanged |
| Inclusions.RuleSet.Include | inclusions.go:36-55 | any matching exclusion gives false; otherwise a loaded root package gives true; otherwise the result is whether some inclusion matches |
| TypeGraph.NamedTypes | typegraph.go:158-180 | every named type returned occurs in the type |
| TypeGraph.NamedTypesComplete | typegraph.go:161-180 | on types built only from named and basic types through arrays, channels, maps, pointers and slices, every named type that occurs is returned |
| TypeGraph.NamedTypesExamples | typegraph.go:158-160 | `[]*time.Time` gives `[time.Time]` and `map[time.Time]time.Duration` gives `[time.Time, time.Duration]` |
| TypeGraph.StringArgs.Set | typegraph.go:54-57 | the flag value is appended and no error is returned |
| TypeGraph.Graph.constructor | typegraph.go:59-64 | the entity map starts empty, which is trivially sound, justified and closed |
| TypeGraph.Graph.CollectFields | typegraph.go:217-226 | one field per struct field or interface method, with its name and type, in the order the type lists them: declaration order for a struct, and for an interface whatever order `env` gives its method set |
| TypeGraph.Graph.AddStruct | typegraph.go:196-251 | a key already present changes nothing, whatever the rules say; an excluded type or one that is neither struct nor interface adds nothing; otherwise the type's entity is stored at the given depth, an interface's alone; every other entity added is deeper; the map only grows, stays sound, justified and closed, and the named type ends up handled |
| TypeGraph.Graph.AddIncluded | typegraph.go:206-251 | for a new included type: a struct or interface is stored as its entity (fields, depth, package name); an interface adds nothing else; any other type adds nothing; every other entity added is deeper |
| TypeGraph.Graph.AddStructEntity | typegraph.go:209-228 | a struct's entity is stored at the given depth before its fields are followed, and it keeps that value; every named type reached from its fields ends up handled; every other entity added is deeper, and like every entity has an origin (`Valid`) |
| TypeGraph.Graph.Store | typegraph.go:210-227 | the map gains exactly the new entity and stays sound and justified, and has one fewer named type without an entity |
| TypeGraph.Graph.Follow | typegraph.go:255-269 | every named type reached from every field ends up handled; the map only grows, and every entity added has at least the given depth |
| TypeGraph.Graph.FollowNames | typegraph.go:258-267 | every named type of one field ends up handled; every entity added has at least the given depth |
| TypeGraph.Graph.Visit | typegraph.go:260-266 | a named type without a package, such as `error`, changes nothing; a new, included struct or interface type with a package gets its entity at the given depth; every entity added has at least that depth, and what was handled stays handled |
| TypeGraph.Graph.FindStructs | typegraph.go:183-194 | every package-level type name of the package is handled; every entity keeps an origin (`Valid`), so a local type name gets an entity only when a field refers to it; when all of them were handled already, nothing changes |
| TypeGraph.Graph.FindAll | typegraph.go:98-101 | after every imported package is scanned, the map is sound, justified, closed and seeded, and it is empty exactly when no package-level type name is an included struct or interface |
| TypeGraph.InsertEntity | typegraph.go:210-238 | storing a new entity keeps the map sound, adds an entity for that named type, shrinks the set of named types without one, and leaves only a new struct pending |
| TypeGraph.InsertJustified | typegraph.go:227 | storing the entity of an addStruct call that has an origin (a seed at depth 0, or a named type in a field of a struct entity one level up) keeps every entity justified |
| TypeGraph.FullNameInjective | typegraph.go:197 | `path + "." + name` determines the path and the name when the name holds no dot |
| TypeGraph.SoundLookup | typegraph.go:118-119 | in a sound map, the entity found under `name.String()` is the entity of that named type, with its fields |
| TypeGraph.JustifiedEntityFound | typegraph.go:183-268 | every entity of a sound, justified map is also in every sound, closed and seeded map of the same program |
| TypeGraph.DrawnEntitiesDetermined | typegraph.go:98-126 | two diagrams with the properties of `Drawn` for the same program and rules have the same entities, with the same fields |
| TypeGraph.CloseEntity | typegraph.go:227-228 | once the named types of its fields are handled, a struct's entity is no longer pending |
| TypeGraph.Graph.AppendNameLinks | typegraph.go:117-123 | one link per named type of the field that has an entity, in order, and both ends added to the non-orphans |
| TypeGraph.Graph.AppendEntityLinks | typegraph.go:114-125 | the links of one entity are those of its fields in order; the non-orphans are the links' endpoints |
| TypeGraph.Graph.Links | typegraph.go:111-126 | for the order the map was visited in, the links are `LinksAlong` that order; a link is present exactly when it comes from an entity's field and names an entity; the non-orphans are the endpoints |
| TypeGraph.NameLinksMember | typegraph.go:117-123 | a link is among a field's links exactly when some named type of the field has an entity under the link's target name |
| TypeGraph.FieldLinksMember | typegraph.go:114-125 | a link is among the links of an entity's first n fields exactly when it comes from one of those fields |
| TypeGraph.LinksAlongIsLink | typegraph.go:111-126 | whatever the visiting order, the links built are exactly the links of the map |
| TypeGraph.LinksOrderIndependent | typegraph.go:113-126 | two visiting orders of the same map give the same multiset of links |
| TypeGraph.OrphanFlagsKeepLinks | typegraph.go:134-135 | setting orphan flags changes no link |
| TypeGraph.OrphanFlagsIrrelevant | typegraph.go:134-135 | setting orphan flags keeps the map sound and closed and changes no handled type |
| TypeGraph.OrphanFlagsKeepOrigins | typegraph.go:134-135 | setting orphan flags keeps every entity justified |
| TypeGraph.Graph.ClassifyOrphans | typegraph.go:134-139 | each entity is orphan exactly when it is no endpoint; it is written out exactly when orphans are wanted or it is not one; nothing else about the entities changes |
| TypeGraph.Graph.SetOrphans | typegraph.go:134-139 | the same loop over the map's entries, in any order, each entry written out at most once |
| TypeGraph.DiagramDrawn | typegraph.go:111-139 | the links and flags computed this way give a diagram with every property of `Drawn` |
| TypeGraph.BuildRules | typegraph.go:79-84 | the rule lists hold the criteria of the flag values that compile, in flag order; the roots are the imported packages |
| TypeGraph.Run | typegraph.go:79-139 | the run aborts with "No structures to print" exactly when no package-level type name is an included struct or interface; otherwise the diagram is sound, justified, closed and seeded, its links are exactly the links of its entities, an entity is orphan exactly when it is no endpoint, and exactly the non-orphans (all entities with `includeOrphans`) are written out, each once |
| Scenarios.OrderScenario | typegraph.go:98-139 | for `Order{Customer Customer}` and `Customer{Name string}`: two entities, the one link `Order.Customer → Customer`, no orphans, both written out |
| Scenarios.ReportScenario | typegraph.go:98-139 | for an empty `Report{}` beside a function-local `Hidden{}`: one entity, for Report, no links, an orphan, written out only when orphans are wanted |
| Scenarios.ReportOnly | typegraph.go:183-190 | a sound, justified map of the Report program holds no entity for the function-local `Hidden`, although it is an included struct type |
| Scenarios.OrderProgramDrawn | typegraph.go:98-105 | the Order program can be loaded and does not make the run abort |
| Scenarios.ReportProgramDrawn | typegraph.go:98-105 | the Report program can be loaded, its names are identifiers, and it does not make the run abort |
| Prototype.Step | main.go:93-101 | one turn of the loop keeps the type within the program's named types and field names |
| Prototype.Iterate | main.go:91-106 | a non-wrapper type is returned unchanged, and the result stays within the program's named types and field names |
| Prototype.IterateSucc | main.go:92-101 | while the loop holds a wrapper, one more turn is one more step |
| Prototype.IterateFixed | main.go:102-103 | once the loop has stopped, more turns change nothing |
| Prototype.SettledUnique | main.go:91-106 | the loop can stop with one result only |
| Prototype.Followed | main.go:91-106 | the result is never named, pointer, array or slice; a type that is none of these, a channel or map included, is returned as it is; every way the loop stops gives this result |
| Prototype.FollowedIdempotent | main.go:102-103 | applying followType to its own result returns that result unchanged |
| Prototype.FollowType | main.go:91-106 | the loop returns `Followed` of its input |
| Prototype.AllSettle | main.go:91-106 | on a program where followType stops for each named type, it stops for every type built from them |
| Prototype.SelfSliceNeverSettles | main.go:92-105 | for `type L []L` the loop never stops: it alternates between `L` and `[]L` |
| Prototype.Generator.constructor | main.go:12 | a generator starts with no program and no structs |
| Prototype.Generator.Load | main.go:42-50 | the struct map is reset to empty; the program is the loaded one, or none with the loader's error |
| Prototype.Generator.ScanType | main.go:52-63 | a package not loaded panics with "Package <pkg> not loaded", a missing object with "Type <pkg>.<typ> not loaded", neither changing the map; otherwise the object's followed type is scanned under its name: the names left in the map are exactly `ScanKeys`, and a new struct's fields carry the typeRefs `Scanned` pins, which are the keys and links printed afterwards |
| Prototype.ScanKeys | main.go:65-89 | the names after scan: a present name or a type other than a struct adds nothing; a struct adds its own name, then what each field's scan adds in order; the result holds the old names and otherwise only the scanned name and field names of the type or the program |
| Prototype.FieldsKeys | main.go:77-85 | the names after the first n fields of a struct are scanned, each field's scan starting from the names the previous ones left |
| Prototype.FieldFollowed | main.go:78-84 | a field's followed type: followType stops on it, and scanning it adds only names of the struct type or the program |
| Prototype.Generator.Scan | main.go:65-89 | a name already present returns its struct and changes nothing; otherwise nil is returned; the names in the map afterwards are exactly `ScanKeys`; a struct type stores a fresh Struct under the name, with one field per struct field whose typeRef is the struct the map held under the field's name when that field was scanned (after the fields before it, per `FieldsKeys`), or nil; any other type stores nothing; existing entries are kept |
| Prototype.Generator.ScanStruct | main.go:74-85 | the struct case of scan: the fresh Struct is stored under the name first, so the fields' scans already see it; the fields are tied to `FieldsKeys` as in `Scan` |
| Prototype.Generator.Insert | main.go:75-76 | a fresh Struct with no fields is stored under the name before any field is scanned |
| Prototype.Generator.ScanFields | main.go:77-85 | the struct ends up with one field per struct field, same names and types, in order; field j's typeRef is what the map held under its name after fields 0 to j-1 were scanned (`FieldsKeys`), and the final names are `FieldsKeys` of all fields |
| Prototype.Generator.ScanField | main.go:78-84 | the field is appended with its name and type, and with typeRef the struct the map held under its name beforehand, or nil; the names afterwards are `ScanKeys` of the field's followed type under its name |
| Prototype.ScannedStep | main.go:77-85 | scanning one more field as `ScanField` does extends the scanned prefix by that field |
| Prototype.LaterFieldLinkedByEarlierScan | main.go:78-84 | in `struct { B struct{ C struct{} }; C struct{} }` field C is linked to the struct that field B's scan stored under "C" |
| Prototype.FieldNotLinkedToOwnScan | main.go:78-88 | in `struct { B struct{}; C struct{} }` field C's typeRef is nil although its own scan stores a struct under "C" |
| Prototype.Generator.AppendField | main.go:80-84 | the field is appended, and every typeRef still names the struct stored under the field's name |

## Left out

- Loading packages is left out: `conf.FromArgs`, `conf.Load`, `loader.Config.Import`, `Scope().Lookup` and `Parent()`. The loaded program is a given value. For `typegraph.go` that is an `Env` plus the `Def`s of each imported package. For `main.go` it is the `Program` of scopes and named types.
- Type strings are not rendered. `types.TypeString`, `Type.String()` and the `TypeName`/`FullType`/`typeString` fields are represented by the type itself. `name.String()` of a named type is `TypeString`, that is `path.Name`.
- The Graphviz templates and `Colour`, `os.Create`, the `dot` invocation, `fmt`/`log` printing, `must`/`abort`/`os.Exit` are left out. The abort is a `Failure` result.
- Flag parsing and `stringArgs.String` are left out, as is the default root `.`.
- The regular-expression engine's internals are left out (uninterpreted `Engine`).
- Go map iteration order is arbitrary. Each loop over a map picks any remaining key, and properties are stated for every order.
- The type assertion `typName.Type().(*types.Named)` in `findStructs` (typegraph.go:190) is not modelled. A package-level type name is assumed to name a named type, so its panic on an alias is not modelled.
- Entity `Orphan` flags are set by replacing the map's values, since nothing else holds a `*structType`. In `main.go` the `Struct` values are shared by `typeRef`, so there they are objects.
- `main.go`'s own `main` is left out: it clashes with `typegraph.go`'s `main`.
- Prototype.FollowType: requires that the loop stops on its input, because `followType` does not terminate on programs such as `type L []L`.
- Prototype.Generator.Load: requires the loaded program's types to be closed and to make followType stop. A loaded program without that property can make `scan` loop forever.
- Prototype.Generator.ScanType: requires a loaded program. The nil-pointer panic of calling it before a successful `Load` is not modelled.
- TypeGraph.Graph.AddStruct: `depth` is a `nat`. The source passes `int` values that start at 0 and only increase, so overflow is not modelled.
- `Env` may be any map from keys to types. go/types also guarantees that interface members are signatures and that an underlying type is never a named type; the model does not require this, so its contracts cover environments go/types never builds.
