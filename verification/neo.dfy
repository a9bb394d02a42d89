/**
 * The conversion knowledge graph: unit-to-unit edges labelled `CONVERTS_TO`,
 * each carrying a property map with at least a `formula`. The graph database
 * is modelled by its effect: a map from (from unit, to unit) to the edge's
 * properties. A call into the database driver that fails is a `Fault`
 * parameter naming which of the three sessions raises.
 */
module Neo {
  import opened Wrappers
  import opened Text
  import opened Engine

  /** `ExtractedUnits`: the two unit names as the extractor returned them. */
  datatype Units = Units(fromUnit: string, toUnit: string)

  /** `ConversionRelation`: the three declared fields and the extra fields pydantic keeps. */
  datatype Relation = Relation(fromUnit: string, toUnit: string, formula: string, extras: map<string, string>)

  type Properties = map<string, string>

  /** The `CONVERTS_TO` edges: at most one per ordered pair of unit names. */
  type Graph = map<(string, string), Properties>

  /** Which database session raises, if any. */
  datatype Fault = NoFault | FailForward | FailLookup | FailInverse

  /** The graph once `store_conversion` has returned, and whether it raised. */
  datatype Stored = Stored(graph: Graph, raised: bool)

  /** A unit name as `normalize_units` leaves it: lower case, no surrounding white space. */
  predicate Normalized(v: string) {
    Trimmed(v) && NoUpper(v)
  }

  /** `normalize_units`: `v.lower().strip()`. */
  function Normalize(v: string): (r: string)
    ensures Normalized(r)
    ensures r == Lower(Strip(v))
  {
    LowerStrip(v);
    LowerStrip(Lower(v));
    LowerIdempotent(v);
    Strip(Lower(v))
  }

  /** Normalizing a normalized name changes nothing. */
  lemma NormalizeKeeps(v: string)
    requires Normalized(v)
    ensures Normalize(v) == v
  {
    LowerNoUpper(v);
    StripTrimmed(v);
  }

  /** `normalize_units` is idempotent. */
  lemma NormalizeIdempotent(v: string)
    ensures Normalize(Normalize(v)) == Normalize(v)
  {
    NormalizeKeeps(Normalize(v));
  }

  /** The field names the model declares; every other field is an extra. */
  predicate Reserved(k: string) {
    k == "from_unit" || k == "to_unit" || k == "formula"
  }

  /** A relation as pydantic can build it: normalized unit names, no declared field among the extras. */
  predicate ValidRelation(rel: Relation) {
    && Normalized(rel.fromUnit) && Normalized(rel.toUnit)
    && forall k :: k in rel.extras ==> !Reserved(k)
  }

  /** The three declared fields are all present. */
  predicate Declared(fields: map<string, string>) {
    "from_unit" in fields && "to_unit" in fields && "formula" in fields
  }

  /**
   * `ConversionRelation(**fields)` with `extra='allow'`: the three declared
   * fields must be present; the unit names are normalized; every other
   * field is kept as an extra, unchanged.
   */
  function MakeRelation(fields: map<string, string>): (r: Option<Relation>)
    ensures r.Some? <==> Declared(fields)
    ensures r.Some? ==> ValidRelation(r.value)
    ensures r.Some? ==>
      && r.value.fromUnit == Normalize(fields["from_unit"])
      && r.value.toUnit == Normalize(fields["to_unit"])
      && r.value.formula == fields["formula"]
    ensures r.Some? ==> forall k :: k in fields && !Reserved(k) ==> k in r.value.extras && r.value.extras[k] == fields[k]
    ensures r.Some? ==> forall k :: k in r.value.extras ==> k in fields
  {
    if Declared(fields) then
      Some(Relation(Normalize(fields["from_unit"]), Normalize(fields["to_unit"]), fields["formula"], Extras(fields)))
    else None
  }

  /** `model_extra`: the fields other than the declared ones. */
  function Extras(fields: map<string, string>): (e: map<string, string>)
    ensures forall k :: k in e <==> k in fields && !Reserved(k)
    ensures forall k :: k in e ==> e[k] == fields[k]
  {
    map k | k in fields && !Reserved(k) :: fields[k]
  }

  /** `model_dump()`: the relation's fields, declared and extra, as one map. */
  function Fields(rel: Relation): map<string, string> {
    rel.extras["from_unit" := rel.fromUnit]["to_unit" := rel.toUnit]["formula" := rel.formula]
  }

  /** Round trip: rebuilding a valid relation from its own fields gives it back. */
  lemma MakeRelationFields(rel: Relation)
    requires ValidRelation(rel)
    ensures MakeRelation(Fields(rel)) == Some(rel)
  {
    var f := Fields(rel);
    assert "from_unit" in f && f["from_unit"] == rel.fromUnit;
    assert "to_unit" in f && f["to_unit"] == rel.toUnit;
    assert "formula" in f && f["formula"] == rel.formula;
    assert Extras(f) == rel.extras;
    NormalizeKeeps(rel.fromUnit);
    NormalizeKeeps(rel.toUnit);
    assert MakeRelation(f) == Some(Relation(Normalize(rel.fromUnit), Normalize(rel.toUnit), rel.formula, Extras(f)));
  }

  /** `{"formula": relation.formula, **extras}`: what the forward edge is given. */
  function EdgeProps(rel: Relation): (p: Properties)
    ensures "formula" in p
    ensures ValidRelation(rel) ==> p["formula"] == rel.formula
    ensures ValidRelation(rel) ==> p.Keys == rel.extras.Keys + {"formula"}
    ensures ValidRelation(rel) ==> forall k :: k in rel.extras ==> p[k] == rel.extras[k]
  {
    var p := map["formula" := rel.formula] + rel.extras;
    assert ValidRelation(rel) ==> "formula" !in rel.extras;
    p
  }

  /**
   * `lookup_conversion`: the `formula` of the edge between the lower-cased
   * names, or None when there is no such edge or it has no formula.
   */
  function LookupIn(g: Graph, units: Units): (r: Option<string>)
    ensures r.Some? <==>
      && (Lower(units.fromUnit), Lower(units.toUnit)) in g
      && "formula" in g[(Lower(units.fromUnit), Lower(units.toUnit))]
    ensures r.Some? ==> r.value == g[(Lower(units.fromUnit), Lower(units.toUnit))]["formula"]
  {
    var key := (Lower(units.fromUnit), Lower(units.toUnit));
    if key in g && "formula" in g[key] then Some(g[key]["formula"]) else None
  }

  /** Python truth of an optional string: present and not empty. */
  predicate Truthy(o: Option<string>) {
    o.Some? && o.value != ""
  }

  /**
   * `MERGE (a)-[r:CONVERTS_TO]->(b) SET r += props`: the edge is created if
   * missing, the given properties are overwritten, the edge's other
   * properties and every other edge are kept.
   */
  function MergeEdge(g: Graph, a: string, b: string, props: Properties): (r: Graph)
    ensures r.Keys == g.Keys + {(a, b)}
    ensures r[(a, b)].Keys == props.Keys + (if (a, b) in g then g[(a, b)].Keys else {})
    ensures forall k :: k in props ==> r[(a, b)][k] == props[k]
    ensures (a, b) in g ==> forall k :: k in g[(a, b)] && k !in props ==> r[(a, b)][k] == g[(a, b)][k]
    ensures forall e :: e in g && e != (a, b) ==> r[e] == g[e]
  {
    var before := if (a, b) in g then g[(a, b)] else map[];
    g[(a, b) := before + props]
  }

  /** Merging properties an edge already holds changes nothing. */
  lemma MergeAgain(g: Graph, a: string, b: string, props: Properties)
    requires (a, b) in g && forall k :: k in props ==> k in g[(a, b)] && g[(a, b)][k] == props[k]
    ensures MergeEdge(g, a, b, props) == g
  {
    var r := MergeEdge(g, a, b, props);
    assert r[(a, b)] == g[(a, b)];
  }

  /**
   * `store_conversion` as a whole, given what `invert_formula(relation.formula)`
   * returns: merge the forward edge; stop if the reverse edge already has a
   * formula; stop (without raising) if inversion raised; otherwise set the
   * reverse edge's formula to the inverse. A failing session raises after the
   * sessions before it have taken effect.
   */
  function StoreEffect(g: Graph, rel: Relation, inversion: Result<string, FormulaError>, fault: Fault): Stored {
    if fault == FailForward then Stored(g, true)
    else
      var forward := MergeEdge(g, rel.fromUnit, rel.toUnit, EdgeProps(rel));
      if fault == FailLookup then Stored(forward, true)
      else if Truthy(LookupIn(forward, Units(rel.toUnit, rel.fromUnit))) then Stored(forward, false)
      else
        match inversion
        case Err(_) => Stored(forward, false)
        case Ok(inverse) =>
          if fault == FailInverse then Stored(forward, true)
          else Stored(MergeEdge(forward, rel.toUnit, rel.fromUnit, map["formula" := inverse]), false)
  }

  /**
   * What the model knows of `invert_formula`: it succeeds only on a formula
   * with an `=` and returns one with an `=`.
   */
  predicate Plausible(rel: Relation, inversion: Result<string, FormulaError>) {
    inversion.Ok? ==> '=' in rel.formula && '=' in inversion.value
  }

  lemma InvertFormulaPlausible(cas: Cas, rel: Relation)
    ensures Plausible(rel, InvertFormula(cas, rel.formula))
  {
  }

  /** The reverse edge holds a non-empty formula. */
  predicate HasFormula(g: Graph, a: string, b: string) {
    (a, b) in g && "formula" in g[(a, b)] && g[(a, b)]["formula"] != ""
  }

  /**
   * The reverse lookup, read on the graph before the call: a relation from a
   * unit to itself finds the formula it has just written; otherwise the
   * reverse edge is as it was.
   */
  predicate ReverseKnown(g: Graph, rel: Relation) {
    if rel.fromUnit == rel.toUnit then rel.formula != "" else HasFormula(g, rel.toUnit, rel.fromUnit)
  }

  /** Every edge joins two normalized unit names. */
  predicate NormalizedGraph(g: Graph) {
    forall e :: e in g ==> Normalized(e.0) && Normalized(e.1)
  }

  /** A stored relation is found again under its own names. */
  lemma LookupNormalized(g: Graph, a: string, b: string)
    requires Normalized(a) && Normalized(b)
    ensures LookupIn(g, Units(a, b)) == if (a, b) in g && "formula" in g[(a, b)] then Some(g[(a, b)]["formula"]) else None
  {
    LowerNoUpper(a);
    LowerNoUpper(b);
  }

  /**
   * The outcome of `store_conversion` by cases, each condition read on the
   * graph before the call: a failing forward session changes nothing; a
   * failing lookup session leaves the forward merge; a known reverse formula
   * or a failed inversion stop after the forward merge; otherwise the reverse
   * merge follows, unless its session fails.
   */
  lemma StoreOutcome(g: Graph, rel: Relation, inversion: Result<string, FormulaError>, fault: Fault)
    requires ValidRelation(rel)
    ensures var forward := MergeEdge(g, rel.fromUnit, rel.toUnit, EdgeProps(rel));
      StoreEffect(g, rel, inversion, fault) ==
        if fault == FailForward then Stored(g, true)
        else if fault == FailLookup then Stored(forward, true)
        else if ReverseKnown(g, rel) || inversion.Err? then Stored(forward, false)
        else if fault == FailInverse then Stored(forward, true)
        else Stored(MergeEdge(forward, rel.toUnit, rel.fromUnit, map["formula" := inversion.value]), false)
  {
    var a, b := rel.fromUnit, rel.toUnit;
    var forward := MergeEdge(g, a, b, EdgeProps(rel));
    LookupNormalized(forward, b, a);
    if a == b {
      assert forward[(a, a)]["formula"] == rel.formula;
    } else {
      assert (b, a) in g ==> forward[(b, a)] == g[(b, a)];
    }
    assert Truthy(LookupIn(forward, Units(b, a))) == ReverseKnown(g, rel);
  }

  /** Storing a valid relation only ever adds edges between normalized names. */
  lemma StoreKeepsNormalized(g: Graph, rel: Relation, inversion: Result<string, FormulaError>, fault: Fault)
    requires NormalizedGraph(g) && ValidRelation(rel)
    ensures NormalizedGraph(StoreEffect(g, rel, inversion, fault).graph)
  {
    StoreOutcome(g, rel, inversion, fault);
  }

  /**
   * Whatever happens after the forward session, the forward edge carries the
   * relation's formula and extras and keeps its other properties.
   */
  lemma StoreForwardEdge(g: Graph, rel: Relation, inversion: Result<string, FormulaError>, fault: Fault)
    requires ValidRelation(rel) && Plausible(rel, inversion) && fault != FailForward
    ensures var g' := StoreEffect(g, rel, inversion, fault).graph;
      var key := (rel.fromUnit, rel.toUnit);
      && key in g'
      && "formula" in g'[key] && g'[key]["formula"] == rel.formula
      && (forall k :: k in rel.extras ==> k in g'[key] && g'[key][k] == rel.extras[k])
      && (key in g ==> forall k :: k in g[key] && k !in EdgeProps(rel) ==> k in g'[key] && g'[key][k] == g[key][k])
  {
    StoreOutcome(g, rel, inversion, fault);
    var a, b := rel.fromUnit, rel.toUnit;
    var forward := MergeEdge(g, a, b, EdgeProps(rel));
    if a == b && rel.formula == "" {
      assert '=' !in rel.formula;
    }
    var g' := StoreEffect(g, rel, inversion, fault).graph;
    assert g' == forward || (a != b && g'[(a, b)] == forward[(a, b)]);
  }

  /**
   * If the reverse edge already holds a formula, or the relation goes from a
   * unit to itself with a formula, only the forward edge is merged and
   * nothing is raised.
   */
  lemma StoreStopsWhenReverseExists(g: Graph, rel: Relation, inversion: Result<string, FormulaError>, fault: Fault)
    requires ValidRelation(rel) && fault != FailForward && fault != FailLookup
    requires ReverseKnown(g, rel)
    ensures StoreEffect(g, rel, inversion, fault) == Stored(MergeEdge(g, rel.fromUnit, rel.toUnit, EdgeProps(rel)), false)
  {
    StoreOutcome(g, rel, inversion, fault);
  }

  /** If inversion raises, the error is swallowed and only the forward edge has changed. */
  lemma StoreInversionFailure(g: Graph, rel: Relation, e: FormulaError, fault: Fault)
    requires ValidRelation(rel) && fault != FailForward && fault != FailLookup
    ensures StoreEffect(g, rel, Err(e), fault) == Stored(MergeEdge(g, rel.fromUnit, rel.toUnit, EdgeProps(rel)), false)
  {
    StoreOutcome(g, rel, Err(e), fault);
  }

  /**
   * With no reverse formula and a successful inversion, the reverse edge's
   * `formula` becomes the inverse and its other properties are kept.
   */
  lemma StoreWritesInverse(g: Graph, rel: Relation, inverse: string)
    requires ValidRelation(rel) && rel.fromUnit != rel.toUnit
    requires !HasFormula(g, rel.toUnit, rel.fromUnit)
    ensures var s := StoreEffect(g, rel, Ok(inverse), NoFault);
      var back := (rel.toUnit, rel.fromUnit);
      && !s.raised
      && back in s.graph && "formula" in s.graph[back] && s.graph[back]["formula"] == inverse
      && (back in g ==> forall k :: k in g[back] && k != "formula" ==> k in s.graph[back] && s.graph[back][k] == g[back][k])
  {
    StoreOutcome(g, rel, Ok(inverse), NoFault);
    var a, b := rel.fromUnit, rel.toUnit;
    var forward := MergeEdge(g, a, b, EdgeProps(rel));
    assert (b, a) in g ==> forward[(b, a)] == g[(b, a)];
  }

  /** Only the forward and the reverse edge can change; no edge is ever removed. */
  lemma StoreFrame(g: Graph, rel: Relation, inversion: Result<string, FormulaError>, fault: Fault)
    requires ValidRelation(rel)
    ensures var g' := StoreEffect(g, rel, inversion, fault).graph;
      && g.Keys <= g'.Keys <= g.Keys + {(rel.fromUnit, rel.toUnit), (rel.toUnit, rel.fromUnit)}
      && forall e :: e in g && e != (rel.fromUnit, rel.toUnit) && e != (rel.toUnit, rel.fromUnit) ==> g'[e] == g[e]
  {
    StoreOutcome(g, rel, inversion, fault);
  }

  /** Storing the same relation twice leaves the graph as one store left it. */
  lemma StoreIdempotent(g: Graph, rel: Relation, inversion: Result<string, FormulaError>)
    requires ValidRelation(rel) && Plausible(rel, inversion)
    ensures var once := StoreEffect(g, rel, inversion, NoFault).graph;
      StoreEffect(once, rel, inversion, NoFault) == Stored(once, false)
  {
    var once := StoreEffect(g, rel, inversion, NoFault).graph;
    StoreOutcome(once, rel, inversion, NoFault);
    ForwardSettled(g, rel, inversion);
    if inversion.Ok? {
      ReverseKnownAfterStore(g, rel, inversion.value);
    }
  }

  /** After one store, merging the forward edge's properties again changes nothing. */
  lemma ForwardSettled(g: Graph, rel: Relation, inversion: Result<string, FormulaError>)
    requires ValidRelation(rel) && Plausible(rel, inversion)
    ensures var once := StoreEffect(g, rel, inversion, NoFault).graph;
      MergeEdge(once, rel.fromUnit, rel.toUnit, EdgeProps(rel)) == once
  {
    var once := StoreEffect(g, rel, inversion, NoFault).graph;
    StoreForwardEdge(g, rel, inversion, NoFault);
    MergeAgain(once, rel.fromUnit, rel.toUnit, EdgeProps(rel));
  }

  /** After a store whose inversion succeeds, the reverse formula is known. */
  lemma ReverseKnownAfterStore(g: Graph, rel: Relation, inverse: string)
    requires ValidRelation(rel) && Plausible(rel, Ok(inverse))
    ensures ReverseKnown(StoreEffect(g, rel, Ok(inverse), NoFault).graph, rel)
  {
    var a, b := rel.fromUnit, rel.toUnit;
    var once := StoreEffect(g, rel, Ok(inverse), NoFault).graph;
    if a != b {
      StoreOutcome(g, rel, Ok(inverse), NoFault);
      if ReverseKnown(g, rel) {
        assert once[(b, a)] == g[(b, a)];
      } else {
        StoreWritesInverse(g, rel, inverse);
        assert inverse != "";
      }
    }
  }

  /**
   * Once the forward session has run, looking the pair up under any spelling
   * that lower-cases to the stored names finds the relation's formula.
   */
  lemma LookupAfterStore(g: Graph, rel: Relation, inversion: Result<string, FormulaError>, fault: Fault, units: Units)
    requires ValidRelation(rel) && Plausible(rel, inversion) && fault != FailForward
    requires Lower(units.fromUnit) == rel.fromUnit && Lower(units.toUnit) == rel.toUnit
    ensures LookupIn(StoreEffect(g, rel, inversion, fault).graph, units) == Some(rel.formula)
  {
    StoreForwardEdge(g, rel, inversion, fault);
  }

  /**
   * `lookup_conversion` lower-cases but does not strip: in a graph of
   * normalized names, a pair in which either unit name starts or ends with
   * white space is never found.
   */
  lemma UntrimmedLookupMisses(g: Graph, units: Units)
    requires NormalizedGraph(g)
    requires !Trimmed(units.fromUnit) || !Trimmed(units.toUnit)
    ensures LookupIn(g, units) == None
  {
    if !Trimmed(units.fromUnit) {
      LowerKeepsUntrimmed(units.fromUnit);
    } else {
      LowerKeepsUntrimmed(units.toUnit);
    }
  }

  /** `lower()` keeps white space at either end where it was. */
  lemma LowerKeepsUntrimmed(v: string)
    requires !Trimmed(v)
    ensures !Trimmed(Lower(v))
  {
    assert Lower(v)[0] == LowerChar(v[0]);
    assert Lower(v)[|v| - 1] == LowerChar(v[|v| - 1]);
  }

  /** The knowledge graph, updated in place by `store_conversion`. */
  class ConversionStore {
    var edges: Graph

    /** Every edge joins two normalized unit names. */
    predicate Valid()
      reads this
    {
      NormalizedGraph(edges)
    }

    constructor()
      ensures Valid() && edges == map[]
    {
      edges := map[];
    }

    /**
     * `store_conversion`: the forward merge, the reverse lookup, the inversion
     * and the reverse merge, in that order, each able to end the call.
     */
    method Store(cas: Cas, rel: Relation, fault: Fault) returns (raised: bool)
      modifies this
      ensures Stored(edges, raised) == StoreEffect(old(edges), rel, InvertFormula(cas, rel.formula), fault)
      ensures old(Valid()) && ValidRelation(rel) ==> Valid()
    {
      if Valid() && ValidRelation(rel) {
        StoreKeepsNormalized(edges, rel, InvertFormula(cas, rel.formula), fault);
      }
      if fault == FailForward {
        return true;
      }
      edges := MergeEdge(edges, rel.fromUnit, rel.toUnit, EdgeProps(rel));
      if fault == FailLookup {
        return true;
      }
      var inverseExists := LookupIn(edges, Units(rel.toUnit, rel.fromUnit));
      if Truthy(inverseExists) {
        return false;
      }
      var inverse := InvertFormula(cas, rel.formula);
      if inverse.Err? {
        return false;
      }
      if fault == FailInverse {
        return true;
      }
      edges := MergeEdge(edges, rel.toUnit, rel.fromUnit, map["formula" := inverse.value]);
      raised := false;
    }
  }
}
