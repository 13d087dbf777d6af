/**
 * The criteria engine of inclusions.go: rules of the form pkgPattern:TypePattern, whole-string
 * matching, and the include decision (exclusions first, then loaded root packages, then inclusions).
 */
module Inclusions {
  import opened Wrappers
  import Strings

  /**
   * The regular-expression engine, left uninterpreted: whether a pattern compiles, and
   * Regexp.FindString, the leftmost match of a pattern in a text ("" when there is none).
   */
  datatype Engine = Engine(compiles: string -> bool, findString: (string, string) -> string)

  /** A compiled rule: its text and the two patterns; None stands for a nil *regexp.Regexp. */
  datatype Criteria = Criteria(text: string, pkgExpr: Option<string>, typeExpr: Option<string>)

  /** What compileCriteria returns: the criteria and, on failure, the pattern that did not compile. */
  datatype Compiled = Compiled(criteria: Criteria, err: Option<string>)

  /**
   * Splits a rule on its last ':' into the package pattern and the type pattern; with no ':'
   * the whole text is the package pattern and the type pattern is empty.
   */
  function SplitRule(s: string): (r: (string, string))
    ensures ':' !in s ==> r == (s, "")
    ensures ':' in s ==> s == r.0 + ":" + r.1 && ':' !in r.1
  {
    var ind := Strings.LastIndexOf(s, ':');
    if ind == -1 then (s, "")
    else
      assert s == s[..ind] + ":" + s[ind + 1..];
      (s[..ind], s[ind + 1..])
  }

  /** The pattern for one half of a rule: an empty half is left nil. */
  function Pattern(half: string): Option<string>
  {
    if |half| > 0 then Some(half) else None
  }

  function CompileCriteria(engine: Engine, s: string): (r: Compiled)
    ensures r.criteria.text == s
    ensures r.err.None? <==>
              (SplitRule(s).0 == "" || engine.compiles(SplitRule(s).0)) &&
              (SplitRule(s).1 == "" || engine.compiles(SplitRule(s).1))
    ensures r.err.Some? ==> r.err.value in {SplitRule(s).0, SplitRule(s).1} && !engine.compiles(r.err.value)
    ensures r.err.None? ==>
              r.criteria.pkgExpr == Pattern(SplitRule(s).0) && r.criteria.typeExpr == Pattern(SplitRule(s).1)
  {
    var (pkg, typ) := SplitRule(s);
    var c := Criteria(s, None, None);
    if |pkg| > 0 && !engine.compiles(pkg) then Compiled(c, Some(pkg))
    else
      var c := c.(pkgExpr := Pattern(pkg));
      if |typ| > 0 && !engine.compiles(typ) then Compiled(c, Some(typ))
      else Compiled(c.(typeExpr := Pattern(typ)), None)
  }

  /** matches: every pattern that is present finds the whole of its input as its leftmost match. */
  predicate Matches(engine: Engine, c: Criteria, pkgName: string, typeName: string)
  {
    if c.pkgExpr.Some? && engine.findString(c.pkgExpr.value, pkgName) != pkgName then false
    else if c.typeExpr.Some? && engine.findString(c.typeExpr.value, typeName) != typeName then false
    else true
  }

  /** The two halves are checked independently: a criteria matches when each half alone does, and nil halves match anything. */
  lemma MatchesHalves(engine: Engine, c: Criteria, pkgName: string, typeName: string)
    ensures Matches(engine, c, pkgName, typeName) <==>
              Matches(engine, c.(typeExpr := None), pkgName, typeName) && Matches(engine, c.(pkgExpr := None), pkgName, typeName)
    ensures Matches(engine, c.(pkgExpr := None, typeExpr := None), pkgName, typeName)
  {
  }

  /** A rule that compiled constrains only its non-empty halves, each to a whole-string match. */
  lemma CompiledRuleMatches(engine: Engine, s: string, pkgName: string, typeName: string)
    requires CompileCriteria(engine, s).err.None?
    ensures var (pkg, typ) := SplitRule(s);
            Matches(engine, CompileCriteria(engine, s).criteria, pkgName, typeName) <==>
              (pkg == "" || engine.findString(pkg, pkgName) == pkgName) &&
              (typ == "" || engine.findString(typ, typeName) == typeName)
  {
  }

  /** "pkg:" constrains only the package, ":T" only the type, and "" or ":" nothing at all. */
  lemma EmptyHalfUnconstrained(engine: Engine, s: string, pkgName: string, typeName: string, other: string)
    requires CompileCriteria(engine, s).err.None?
    ensures var c := CompileCriteria(engine, s).criteria;
            (SplitRule(s).0 == "" ==> Matches(engine, c, pkgName, typeName) == Matches(engine, c, other, typeName)) &&
            (SplitRule(s).1 == "" ==> Matches(engine, c, pkgName, typeName) == Matches(engine, c, pkgName, other))
  {
  }

  /** The state the include decision reads: the two rule lists and the loaded root packages. */
  datatype Rules = Rules(engine: Engine, inclusions: seq<Criteria>, exclusions: seq<Criteria>, imported: set<string>)

  predicate AnyMatch(engine: Engine, cs: seq<Criteria>, pkgName: string, typeName: string)
  {
    exists i :: 0 <= i < |cs| && Matches(engine, cs[i], pkgName, typeName)
  }

  /** Whether a type is included: no exclusion matches, and it is in a root package or some inclusion matches. */
  predicate Included(r: Rules, pkgName: string, typeName: string)
  {
    !AnyMatch(r.engine, r.exclusions, pkgName, typeName) &&
    (pkgName in r.imported || AnyMatch(r.engine, r.inclusions, pkgName, typeName))
  }

  lemma AnyMatchSnoc(engine: Engine, cs: seq<Criteria>, c: Criteria, pkgName: string, typeName: string)
    ensures AnyMatch(engine, cs + [c], pkgName, typeName) <==>
              AnyMatch(engine, cs, pkgName, typeName) || Matches(engine, c, pkgName, typeName)
  {
    if AnyMatch(engine, cs, pkgName, typeName) {
      var i :| 0 <= i < |cs| && Matches(engine, cs[i], pkgName, typeName);
      assert (cs + [c])[i] == cs[i];
    }
    assert (cs + [c])[|cs|] == c;
  }

  /**
   * Another inclusion can only add types and another exclusion can only remove them; in a loaded
   * root package exactly the types no exclusion matches are included.
   */
  lemma IncludedMonotone(r: Rules, c: Criteria, pkgName: string, typeName: string)
    ensures Included(r, pkgName, typeName) ==> Included(r.(inclusions := r.inclusions + [c]), pkgName, typeName)
    ensures Included(r.(exclusions := r.exclusions + [c]), pkgName, typeName) ==> Included(r, pkgName, typeName)
    ensures Included(r.(exclusions := r.exclusions + [c]), pkgName, typeName) ==> !Matches(r.engine, c, pkgName, typeName)
    ensures pkgName in r.imported ==> (Included(r, pkgName, typeName) <==> !AnyMatch(r.engine, r.exclusions, pkgName, typeName))
  {
    AnyMatchSnoc(r.engine, r.inclusions, c, pkgName, typeName);
    AnyMatchSnoc(r.engine, r.exclusions, c, pkgName, typeName);
  }

  /** The criteria that a list of rule texts leaves behind when each one that fails to compile is dropped. */
  function Accepted(engine: Engine, texts: seq<string>): seq<Criteria>
  {
    if texts == [] then []
    else
      var c := CompileCriteria(engine, texts[|texts| - 1]);
      Accepted(engine, texts[..|texts| - 1]) + (if c.err.None? then [c.criteria] else [])
  }

  /** Appending a rule text appends its criteria, when it compiles. */
  lemma AcceptedSnoc(engine: Engine, texts: seq<string>, t: string)
    ensures Accepted(engine, texts + [t]) ==
              Accepted(engine, texts) + (if CompileCriteria(engine, t).err.None? then [CompileCriteria(engine, t).criteria] else [])
  {
    assert (texts + [t])[..|texts|] == texts;
  }

  /** A rule whose pattern does not compile leaves the accepted criteria as they were. */
  lemma {:induction false} MalformedRuleIgnored(engine: Engine, before: seq<string>, bad: string, after: seq<string>)
    requires CompileCriteria(engine, bad).err.Some?
    ensures Accepted(engine, before + [bad] + after) == Accepted(engine, before + after)
  {
    if after == [] {
      assert before + [bad] + after == before + [bad] && before + after == before;
      AcceptedSnoc(engine, before, bad);
    } else {
      var init, last := after[..|after| - 1], after[|after| - 1];
      var p, q := before + [bad] + init, before + init;
      assert before + [bad] + after == p + [last] && before + after == q + [last];
      MalformedRuleIgnored(engine, before, bad, init);
      AcceptedSnoc(engine, p, last);
      AcceptedSnoc(engine, q, last);
    }
  }

  /** The globals inclusions and exclusions, with the packages loaded as roots (prog.Imported). */
  class RuleSet {
    const engine: Engine
    const imported: set<string>
    var inclusions: seq<Criteria>
    var exclusions: seq<Criteria>

    constructor (engine: Engine, imported: set<string>)
      ensures this.engine == engine && this.imported == imported
      ensures inclusions == [] && exclusions == []
    {
      this.engine := engine;
      this.imported := imported;
      inclusions := [];
      exclusions := [];
    }

    function Current(): Rules
      reads this
    {
      Rules(engine, inclusions, exclusions, imported)
    }

    method AddInclusion(s: string) returns (err: Option<string>)
      modifies this
      ensures err == CompileCriteria(engine, s).err
      ensures exclusions == old(exclusions)
      ensures inclusions == old(inclusions) + (if err.None? then [CompileCriteria(engine, s).criteria] else [])
    {
      var c := CompileCriteria(engine, s);
      if c.err.Some? {
        return c.err;
      }
      inclusions := inclusions + [c.criteria];
      return None;
    }

    method AddExclusion(s: string) returns (err: Option<string>)
      modifies this
      ensures err == CompileCriteria(engine, s).err
      ensures inclusions == old(inclusions)
      ensures exclusions == old(exclusions) + (if err.None? then [CompileCriteria(engine, s).criteria] else [])
    {
      var c := CompileCriteria(engine, s);
      if c.err.Some? {
        return c.err;
      }
      exclusions := exclusions + [c.criteria];
      return None;
    }

    /** include: exclusions are consulted first and win, then the root packages, then the inclusions. */
    method Include(pkgName: string, typeName: string) returns (b: bool)
      ensures (exists i :: 0 <= i < |exclusions| && Matches(engine, exclusions[i], pkgName, typeName)) ==> !b
      ensures (forall i :: 0 <= i < |exclusions| ==> !Matches(engine, exclusions[i], pkgName, typeName)) ==>
                if pkgName in imported then b
                else b <==> exists j :: 0 <= j < |inclusions| && Matches(engine, inclusions[j], pkgName, typeName)
      ensures b == Included(Current(), pkgName, typeName)
    {
      for i := 0 to |exclusions|
        invariant forall i' :: 0 <= i' < i ==> !Matches(engine, exclusions[i'], pkgName, typeName)
      {
        if Matches(engine, exclusions[i], pkgName, typeName) {
          return false;
        }
      }
      if pkgName in imported {
        return true;
      }
      for j := 0 to |inclusions|
        invariant forall j' :: 0 <= j' < j ==> !Matches(engine, inclusions[j'], pkgName, typeName)
      {
        if Matches(engine, inclusions[j], pkgName, typeName) {
          return true;
        }
      }
      return false;
    }
  }
}
