/**
 * Two small programs and what Run's contract gives for them: how any diagram Run can return for
 * them looks, whatever the regular-expression engine.
 */
module Scenarios {
  import opened Wrappers
  import opened GoTypes
  import opened Inclusions
  import opened TypeGraph

  const Order := Key(Some("app"), "Order")
  const Customer := Key(Some("app"), "Customer")
  const Report := Key(Some("app"), "Report")
  const Hidden := Key(Some("app"), "Hidden")

  lemma TwoKeys<K>(s: set<K>, a: K, b: K)
    requires a in s && b in s && forall k :: k in s ==> k == a || k == b
    ensures s == {a, b}
  {
  }

  lemma NoLinks()
    ensures Endpoints([]) == {}
  {
  }

  lemma OneLink(u: UseInfo)
    ensures Endpoints([u]) == {u.fromStruct, u.toStruct}
  {
    assert forall v :: v in [u] <==> v == u;
  }

  /** A single field of a named type with an entity yields one link. */
  lemma NamedFieldLinks(m: Structs, from: string, f: Field, k: Key)
    requires f.typ == Named(k) && TypeString(k) in m
    ensures FieldLinks(m, from, [f]) == [UseInfo(from, f.name, TypeString(k))]
  {
    assert [f][..0] == [] && [k][..0] == [];
    assert NamedTypes(f.typ) == [k];
    assert FieldLinks(m, from, [f]) == FieldLinks(m, from, []) + NameLinks(m, from, f.name, [k]);
    assert NameLinks(m, from, f.name, [k]) == NameLinks(m, from, f.name, []) + [UseInfo(from, f.name, TypeString(k))];
  }

  /** Visiting two entities appends the links of the first, then those of the second. */
  lemma LinksAlongTwo(m: Structs, a: string, b: string)
    requires a in m && b in m
    ensures LinksAlong(m, [a, b]) == FieldLinks(m, m[a].fullName, m[a].fields) + FieldLinks(m, m[b].fullName, m[b].fields)
  {
    assert [a, b][..1] == [a] && [a][..0] == [];
    assert LinksAlong(m, [a]) == LinksAlong(m, []) + FieldLinks(m, m[a].fullName, m[a].fields);
    assert LinksAlong(m, [a, b]) == LinksAlong(m, [a]) + FieldLinks(m, m[b].fullName, m[b].fields);
  }

  /** A sequence enumerating two distinct keys lists them in one of two orders. */
  lemma EnumeratesTwo(order: seq<string>, a: string, b: string)
    requires a != b && Enumerates(order, {a, b})
    ensures order == [a, b] || order == [b, a]
  {
    EnumeratesCard(order, {a, b});
    assert order[0] in {a, b} && order[1] in {a, b};
  }

  /** A single field of a basic type yields no link. */
  lemma BasicFieldLinks(m: Structs, from: string, f: Field)
    requires f.typ.Basic?
    ensures FieldLinks(m, from, [f]) == []
  {
    assert [f][..0] == [];
  }

  /** Package app declares `type Order struct { Customer Customer }` and `type Customer struct { Name string }`. */
  function OrderEnv(): Env
  {
    map[Order := Struct([Var("Customer", Named(Customer))]), Customer := Struct([Var("Name", Basic("string"))])]
  }

  function OrderImported(): Imported
  {
    map["app" := [TypeName("Order", true), TypeName("Customer", true)]]
  }

  /** The program may be handed to Run, and Run does not abort on it. */
  lemma OrderProgramDrawn(engine: Engine)
    ensures Closed(OrderEnv()) && Loaded(OrderEnv(), OrderImported())
    ensures !NothingToDraw(OrderEnv(), RulesFor(engine, [], [], OrderImported()), OrderImported())
  {
    var env := OrderEnv();
    assert KeysIn(env[Order]) == {Customer} by {
      assert KeysIn(env[Order].fields[0].typ) == {Customer};
    }
    assert KeysIn(env[Customer]) == {} by {
      assert KeysIn(env[Customer].fields[0].typ) == {};
    }
    var d := TypeName("Order", true);
    assert d in OrderImported()["app"] && IsSeed(d);
    assert Included(RulesFor(engine, [], [], OrderImported()), "app", "Order");
  }

  lemma OrderNames()
    ensures TypeString(Order) == FullName("app", "Order") == "app.Order"
    ensures TypeString(Customer) == FullName("app", "Customer") == "app.Customer"
    ensures Order != Customer && "app.Order" != "app.Customer"
  {
    assert "Order"[0] != "Customer"[0];
    assert "app.Order"[4] != "app.Customer"[4];
  }

  /** The fields an entity of Order or Customer gets. */
  lemma OrderFields()
    ensures ToFields(Members(OrderEnv()[Order])) == [Field("Customer", Named(Customer))]
    ensures ToFields(Members(OrderEnv()[Customer])) == [Field("Name", Basic("string"))]
  {
    OrderNames();
  }

  /** Both package-level types of app are included struct types, so both get an entity. */
  lemma OrderSeeds(engine: Engine, m: Structs)
    requires Seeded(OrderEnv(), RulesFor(engine, [], [], OrderImported()), m, OrderImported())
    ensures "app.Order" in m && "app.Customer" in m
  {
    var env, r := OrderEnv(), RulesFor(engine, [], [], OrderImported());
    OrderNames();
    assert Included(r, "app", "Order") && Included(r, "app", "Customer");
    assert Composite(env[Order]) && Composite(env[Customer]);
    assert Handled(env, r, m, Order) by {
      assert TypeName("Order", true) in OrderImported()["app"];
    }
    assert Handled(env, r, m, Customer) by {
      assert TypeName("Customer", true) in OrderImported()["app"];
    }
  }

  /** A sound map describes named types of the program only. */
  lemma OrderOnly(engine: Engine, m: Structs, k: string)
    requires Sound(OrderEnv(), RulesFor(engine, [], [], OrderImported()), m) && k in m
    ensures k == "app.Order" || k == "app.Customer"
    ensures k == "app.Order" ==> m[k].fields == [Field("Customer", Named(Customer))]
    ensures k == "app.Customer" ==> m[k].fields == [Field("Name", Basic("string"))]
  {
    var env, r := OrderEnv(), RulesFor(engine, [], [], OrderImported());
    OrderNames();
    OrderFields();
    assert Describes(env, r, k, m[k]);
    var key := Key(Some(m[k].pkgPath), m[k].name);
    assert key == Order || key == Customer;
  }

  /** A sound map of the program holds no entity besides those of Order and Customer. */
  lemma OrderKeysOnly(engine: Engine, m: Structs)
    requires Sound(OrderEnv(), RulesFor(engine, [], [], OrderImported()), m)
    ensures forall k :: k in m ==> k == "app.Order" || k == "app.Customer"
  {
    forall k | k in m ensures k == "app.Order" || k == "app.Customer" {
      OrderOnly(engine, m, k);
    }
  }

  /** In either visiting order the one link is Order.Customer to Customer. */
  lemma OrderLinks(m: Structs, order: seq<string>)
    requires m.Keys == {"app.Order", "app.Customer"}
    requires m["app.Order"].fullName == "app.Order" && m["app.Customer"].fullName == "app.Customer"
    requires m["app.Order"].fields == [Field("Customer", Named(Customer))]
    requires m["app.Customer"].fields == [Field("Name", Basic("string"))]
    requires Enumerates(order, m.Keys)
    ensures LinksAlong(m, order) == [UseInfo("app.Order", "Customer", "app.Customer")]
  {
    OrderNames();
    NamedFieldLinks(m, "app.Order", Field("Customer", Named(Customer)), Customer);
    BasicFieldLinks(m, "app.Customer", Field("Name", Basic("string")));
    EnumeratesTwo(order, "app.Order", "app.Customer");
    LinksAlongTwo(m, order[0], order[1]);
  }

  /** Two entities, the one link Order.Customer to Customer, no orphans, both written out. */
  lemma OrderScenario(engine: Engine, includeOrphans: bool, d: Diagram)
    requires Drawn(OrderEnv(), RulesFor(engine, [], [], OrderImported()), OrderImported(), includeOrphans, d)
    ensures d.entities.Keys == {"app.Order", "app.Customer"}
    ensures d.links == [UseInfo("app.Order", "Customer", "app.Customer")]
    ensures forall k :: k in d.entities ==> !d.entities[k].orphan
    ensures Enumerates(d.emitted, {"app.Order", "app.Customer"})
  {
    var r, m := RulesFor(engine, [], [], OrderImported()), d.entities;
    assert m.Keys == {"app.Order", "app.Customer"} by {
      OrderSeeds(engine, m);
      OrderKeysOnly(engine, m);
      TwoKeys(m.Keys, "app.Order", "app.Customer");
    }
    assert d.links == [UseInfo("app.Order", "Customer", "app.Customer")] by {
      OrderOnly(engine, m, "app.Order");
      OrderOnly(engine, m, "app.Customer");
      assert Describes(OrderEnv(), r, "app.Order", m["app.Order"]);
      assert Describes(OrderEnv(), r, "app.Customer", m["app.Customer"]);
      var order :| Enumerates(order, m.Keys) && d.links == LinksAlong(m, order);
      OrderLinks(m, order);
    }
    OneLink(UseInfo("app.Order", "Customer", "app.Customer"));
  }

  /**
   * Package app declares `type Report struct {}` at package scope and `type Hidden struct {}`
   * inside a function body; Hidden is an included struct type, but no discovery starts from it
   * and no field refers to it.
   */
  function ReportEnv(): Env
  {
    map[Report := Struct([]), Hidden := Struct([])]
  }

  function ReportImported(): Imported
  {
    map["app" := [TypeName("Report", true), TypeName("Hidden", false)]]
  }

  /** The program may be handed to Run, and Run does not abort on it. */
  lemma ReportProgramDrawn(engine: Engine)
    ensures Closed(ReportEnv()) && Loaded(ReportEnv(), ReportImported()) && Identifiers(ReportEnv())
    ensures !NothingToDraw(ReportEnv(), RulesFor(engine, [], [], ReportImported()), ReportImported())
  {
    var env := ReportEnv();
    assert KeysIn(env[Report]) == {} && KeysIn(env[Hidden]) == {};
    var d := TypeName("Report", true);
    assert d in ReportImported()["app"] && IsSeed(d);
    assert Included(RulesFor(engine, [], [], ReportImported()), "app", "Report");
  }

  lemma ReportNames()
    ensures TypeString(Report) == FullName("app", "Report") == "app.Report"
  {
  }

  /** The one package-level type of app is an included struct type, so it gets an entity. */
  lemma ReportSeed(engine: Engine, m: Structs)
    requires Seeded(ReportEnv(), RulesFor(engine, [], [], ReportImported()), m, ReportImported())
    ensures "app.Report" in m
  {
    var env, r := ReportEnv(), RulesFor(engine, [], [], ReportImported());
    ReportNames();
    assert Included(r, "app", "Report");
    assert Handled(env, r, m, Report) by {
      assert TypeName("Report", true) in ReportImported()["app"];
    }
  }

  /** Report is the only seed: Hidden is local to a function. */
  lemma ReportSeedKeys()
    ensures SeedKeys(ReportImported()) == {Report}
  {
    assert TypeName("Report", true) in ReportImported()["app"];
  }

  /**
   * A sound map in which every entity has an origin describes Report only: neither type has
   * fields, so nothing is reached by following, and the one seed is Report.
   */
  lemma ReportOnly(engine: Engine, m: Structs, k: string)
    requires Sound(ReportEnv(), RulesFor(engine, [], [], ReportImported()), m)
    requires Justified(ReportEnv(), SeedKeys(ReportImported()), m) && k in m
    ensures k == "app.Report" && m[k].fields == []
  {
    var env, r := ReportEnv(), RulesFor(engine, [], [], ReportImported());
    ReportNames();
    ReportSeedKeys();
    var key := Key(Some(m[k].pkgPath), m[k].name);
    forall p | p in m ensures !Refers(m[p].fields, key) {
      assert Describes(env, r, p, m[p]);
    }
    assert EntityOrigin(env, SeedKeys(ReportImported()), m, m[k]);
    assert key == Report;
    assert Describes(env, r, k, m[k]);
  }

  /** Every diagram of the program holds exactly the entity of Report, with no fields. */
  lemma ReportEntities(engine: Engine, m: Structs)
    requires Sound(ReportEnv(), RulesFor(engine, [], [], ReportImported()), m)
    requires Justified(ReportEnv(), SeedKeys(ReportImported()), m)
    requires Seeded(ReportEnv(), RulesFor(engine, [], [], ReportImported()), m, ReportImported())
    ensures m.Keys == {"app.Report"} && m["app.Report"].fields == []
  {
    ReportSeed(engine, m);
    forall k | k in m ensures k == "app.Report" {
      ReportOnly(engine, m, k);
    }
    ReportOnly(engine, m, "app.Report");
  }

  lemma EnumeratesOne(order: seq<string>, a: string)
    requires Enumerates(order, {a})
    ensures order == [a]
  {
    EnumeratesCard(order, {a});
    assert order[0] in {a};
  }

  lemma EnumeratesNone(order: seq<string>)
    requires Enumerates(order, {})
    ensures order == []
  {
    EnumeratesCard(order, {});
  }

  /** A single entity without fields has no links. */
  lemma ReportLinks(m: Structs, order: seq<string>)
    requires m.Keys == {"app.Report"} && m["app.Report"].fields == []
    requires Enumerates(order, m.Keys)
    ensures LinksAlong(m, order) == []
  {
    EnumeratesOne(order, "app.Report");
    assert order[..0] == [];
  }

  /** One entity, an orphan with no links, written out only when orphans are wanted; no entity for Hidden. */
  lemma ReportScenario(engine: Engine, includeOrphans: bool, d: Diagram)
    requires Drawn(ReportEnv(), RulesFor(engine, [], [], ReportImported()), ReportImported(), includeOrphans, d)
    ensures d.entities.Keys == {"app.Report"}
    ensures d.links == [] && d.entities["app.Report"].orphan
    ensures d.emitted == if includeOrphans then ["app.Report"] else []
  {
    var m := d.entities;
    ReportEntities(engine, m);
    var order :| Enumerates(order, m.Keys) && d.links == LinksAlong(m, order);
    ReportLinks(m, order);
    NoLinks();
    assert m["app.Report"].orphan;
    if includeOrphans {
      assert Enumerates(d.emitted, {"app.Report"});
      EnumeratesOne(d.emitted, "app.Report");
    } else {
      assert Enumerates(d.emitted, {});
      EnumeratesNone(d.emitted);
    }
  }
}
