/**
 * Bulk ingestion: every entry of a dictionary of conversion records is
 * validated and stored in turn. An entry that does not validate, or whose
 * store raises, is skipped with a log line, and the batch goes on.
 *
 * The dictionary is its sequence of (key, fields) pairs in iteration order.
 * Which database session raises for an entry is given by `faults`, keyed
 * by the entry's key. How the batch is sequenced does not depend on what
 * validation or a store does, so the fold is stated for any validation
 * `validate` and any store `save`, and instantiated with the `ConversionRelation`
 * validation and `store_conversion` where the graph matters.
 */
module MassEdgeStorage {
  import opened Wrappers
  import opened Engine
  import opened Neo

  /** One item of `formula_dict`: its key and its record. */
  type Entry = (string, map<string, string>)

  /** Validation of one record: the relation it builds, or None where pydantic raises. */
  type Validate = map<string, string> -> Option<Relation>

  /** One store of a relation under an entry's key: the graph after, and whether it raised. */
  type Save = (Graph, Relation, string) -> Stored

  /** `store_conversion`, with the session that raises for each key given by `faults`. */
  function StoreConversion(cas: Cas, faults: string -> Fault): Save {
    (g: Graph, rel: Relation, key: string) => StoreEffect(g, rel, InvertFormula(cas, rel.formula), faults(key))
  }

  /** The log line printed for an entry. */
  datatype Processed = Saved | SkippedInvalid | SkippedStorage

  /** One entry: validate; if it validates, store it, a raised store being logged and swallowed. */
  function Step(validate: Validate, save: Save, g: Graph, entry: Entry): (r: (Graph, Processed))
    ensures r.1 == SkippedInvalid <==> validate(entry.1).None?
    ensures r.1 == SkippedInvalid ==> r.0 == g
  {
    match validate(entry.1)
    case None => (g, SkippedInvalid)
    case Some(rel) =>
      var s := save(g, rel, entry.0);
      (s.graph, if s.raised then SkippedStorage else Saved)
  }

  /**
   * `save_all_conversions`: the graph after every entry has been processed in
   * order, and one log line per entry, skipped entries included.
   */
  function Bulk(validate: Validate, save: Save, g: Graph, entries: seq<Entry>): (r: (Graph, seq<Processed>))
    ensures |r.1| == |entries|
    decreases |entries|
  {
    if entries == [] then (g, [])
    else
      var before := Bulk(validate, save, g, entries[..|entries| - 1]);
      var step := Step(validate, save, before.0, entries[|entries| - 1]);
      (step.0, before.1 + [step.1])
  }

  /** The loop of `save_all_conversions`: it never raises, whatever happens to an entry. */
  method SaveAllConversions(store: ConversionStore, cas: Cas, entries: seq<Entry>, faults: string -> Fault)
    returns (log: seq<Processed>)
    modifies store
    ensures (store.edges, log) == Bulk(MakeRelation, StoreConversion(cas, faults), old(store.edges), entries)
    ensures old(store.Valid()) ==> store.Valid()
  {
    ghost var validate: Validate := MakeRelation;
    ghost var save := StoreConversion(cas, faults);
    log := [];
    for i := 0 to |entries|
      invariant (store.edges, log) == Bulk(validate, save, old(store.edges), entries[..i])
      invariant old(store.Valid()) ==> store.Valid()
    {
      assert entries[..i + 1][..i] == entries[..i];
      var (key, fields) := entries[i];
      var relation := MakeRelation(fields);
      if relation.None? {
        log := log + [SkippedInvalid];
        continue;
      }
      var raised := store.Store(cas, relation.value, faults(key));
      if raised {
        log := log + [SkippedStorage];
        continue;
      }
      log := log + [Saved];
    }
    assert entries[..|entries|] == entries;
  }

  /** The log marks exactly the entries that do not validate as skipped for being invalid. */
  lemma {:induction false} BulkLogsInvalid(validate: Validate, save: Save, g: Graph, entries: seq<Entry>, i: nat)
    requires i < |entries|
    ensures Bulk(validate, save, g, entries).1[i] == SkippedInvalid <==> validate(entries[i].1).None?
    decreases |entries|
  {
    var prefix := entries[..|entries| - 1];
    var before := Bulk(validate, save, g, prefix);
    var step := Step(validate, save, before.0, entries[|entries| - 1]);
    var log := before.1 + [step.1];
    assert Bulk(validate, save, g, entries).1 == log;
    if i < |prefix| {
      BulkLogsInvalid(validate, save, g, prefix, i);
      assert log[i] == before.1[i];
      assert prefix[i] == entries[i];
    } else {
      assert log[i] == step.1;
    }
  }

  /** Processing two runs of entries is processing the first, then the second from where it left the graph. */
  lemma {:induction false} BulkAppend(validate: Validate, save: Save, g: Graph, a: seq<Entry>, b: seq<Entry>)
    ensures var first := Bulk(validate, save, g, a);
      var second := Bulk(validate, save, first.0, b);
      Bulk(validate, save, g, a + b) == (second.0, first.1 + second.1)
    decreases |b|
  {
    var first := Bulk(validate, save, g, a);
    if b == [] {
      assert a + b == a;
      assert Bulk(validate, save, first.0, b) == (first.0, []);
      assert first.1 + [] == first.1;
    } else {
      var b' := b[..|b| - 1];
      assert (a + b)[..|a + b| - 1] == a + b';
      assert (a + b)[|a + b| - 1] == b[|b| - 1];
      BulkAppend(validate, save, g, a, b');
      var middle := Bulk(validate, save, first.0, b');
      var step := Step(validate, save, middle.0, b[|b| - 1]);
      assert Bulk(validate, save, first.0, b) == (step.0, middle.1 + [step.1]);
      assert Bulk(validate, save, g, a + b) == (step.0, (first.1 + middle.1) + [step.1]);
      assert (first.1 + middle.1) + [step.1] == first.1 + (middle.1 + [step.1]);
    }
  }

  /**
   * An entry that does not validate leaves the graph as it was and the
   * entries after it are processed as if it were not there.
   */
  lemma BulkSkipsInvalid(validate: Validate, save: Save, g: Graph, before: seq<Entry>, e: Entry, after: seq<Entry>)
    requires validate(e.1).None?
    ensures var without := Bulk(validate, save, g, before + after);
      var with := Bulk(validate, save, g, before + [e] + after);
      with.0 == without.0 && with.1 == without.1[..|before|] + [SkippedInvalid] + without.1[|before|..]
  {
    var first := Bulk(validate, save, g, before);
    BulkAppend(validate, save, g, before + [e], after);
    BulkAppend(validate, save, g, before, [e]);
    BulkAppend(validate, save, g, before, after);
    assert [e][..0] == [];
    var second := Bulk(validate, save, first.0, after);
    assert (first.1 + second.1)[..|before|] == first.1;
    assert (first.1 + second.1)[|before|..] == second.1;
  }

  /**
   * An entry whose store raises is logged and the batch goes on: the entries
   * after it are processed from the graph the failed store left.
   */
  lemma BulkContinuesAfterFailure(validate: Validate, save: Save, g: Graph, before: seq<Entry>, e: Entry, after: seq<Entry>)
    requires validate(e.1).Some?
    requires save(Bulk(validate, save, g, before).0, validate(e.1).value, e.0).raised
    ensures var first := Bulk(validate, save, g, before);
      var middle := save(first.0, validate(e.1).value, e.0).graph;
      var rest := Bulk(validate, save, middle, after);
      Bulk(validate, save, g, before + [e] + after) == (rest.0, first.1 + [SkippedStorage] + rest.1)
  {
    BulkAppend(validate, save, g, before + [e], after);
    BulkAppend(validate, save, g, before, [e]);
    assert [e][..0] == [];
  }

  /** The valid entries, in order, as the relations they validate to, with their keys. */
  function ValidRelations(validate: Validate, entries: seq<Entry>): (rels: seq<(string, Relation)>)
    ensures |rels| <= |entries|
    decreases |entries|
  {
    if entries == [] then []
    else
      var last := entries[|entries| - 1];
      ValidRelations(validate, entries[..|entries| - 1]) + match validate(last.1)
        case None => []
        case Some(rel) => [(last.0, rel)]
  }

  /** Each relation stored in turn, whether or not an earlier store raised. */
  function StoreAll(save: Save, g: Graph, rels: seq<(string, Relation)>): Graph
    decreases |rels|
  {
    if rels == [] then g
    else
      var (key, rel) := rels[|rels| - 1];
      save(StoreAll(save, g, rels[..|rels| - 1]), rel, key).graph
  }

  /** One more relation at the end is one more store on the graph the others left. */
  lemma StoreAllSnoc(save: Save, g: Graph, rels: seq<(string, Relation)>, key: string, rel: Relation)
    ensures StoreAll(save, g, rels + [(key, rel)]) == save(StoreAll(save, g, rels), rel, key).graph
  {
    var all := rels + [(key, rel)];
    assert all[..|all| - 1] == rels;
    assert all[|all| - 1] == (key, rel);
  }

  /** The final graph is the store folded over the valid entries, in order. */
  lemma {:induction false} BulkIsFoldOverValid(validate: Validate, save: Save, g: Graph, entries: seq<Entry>)
    ensures Bulk(validate, save, g, entries).0 == StoreAll(save, g, ValidRelations(validate, entries))
    decreases |entries|
  {
    if entries != [] {
      var prefix := entries[..|entries| - 1];
      var last := entries[|entries| - 1];
      BulkIsFoldOverValid(validate, save, g, prefix);
      var rels := ValidRelations(validate, prefix);
      var before := Bulk(validate, save, g, prefix);
      assert Bulk(validate, save, g, entries).0 == Step(validate, save, before.0, last).0;
      match validate(last.1)
      case None =>
        assert ValidRelations(validate, entries) == rels + [];
        assert rels + [] == rels;
      case Some(rel) =>
        assert ValidRelations(validate, entries) == rels + [(last.0, rel)];
        StoreAllSnoc(save, g, rels, last.0, rel);
    }
  }

  /** Bulk storage with `store_conversion` only ever adds edges between normalized unit names. */
  lemma {:induction false} BulkKeepsNormalized(cas: Cas, faults: string -> Fault, g: Graph, entries: seq<Entry>)
    requires NormalizedGraph(g)
    ensures NormalizedGraph(Bulk(MakeRelation, StoreConversion(cas, faults), g, entries).0)
    decreases |entries|
  {
    if entries != [] {
      var save := StoreConversion(cas, faults);
      var before := Bulk(MakeRelation, save, g, entries[..|entries| - 1]);
      BulkKeepsNormalized(cas, faults, g, entries[..|entries| - 1]);
      var last := entries[|entries| - 1];
      if MakeRelation(last.1).Some? {
        var rel := MakeRelation(last.1).value;
        StoreKeepsNormalized(before.0, rel, InvertFormula(cas, rel.formula), faults(last.0));
      }
    }
  }

  /** Bulk storage with `store_conversion` never removes an edge. */
  lemma {:induction false} BulkKeepsEdges(cas: Cas, faults: string -> Fault, g: Graph, entries: seq<Entry>)
    ensures g.Keys <= Bulk(MakeRelation, StoreConversion(cas, faults), g, entries).0.Keys
    decreases |entries|
  {
    if entries != [] {
      var save := StoreConversion(cas, faults);
      var before := Bulk(MakeRelation, save, g, entries[..|entries| - 1]);
      BulkKeepsEdges(cas, faults, g, entries[..|entries| - 1]);
      var last := entries[|entries| - 1];
      if MakeRelation(last.1).Some? {
        var rel := MakeRelation(last.1).value;
        StoreFrame(before.0, rel, InvertFormula(cas, rel.formula), faults(last.0));
      }
    }
  }

  /**
   * A valid entry whose forward session succeeds can be looked up afterwards
   * under its normalized unit names, and the lookup returns its formula.
   */
  lemma SavedEntryIsFound(cas: Cas, faults: string -> Fault, g: Graph, entry: Entry)
    requires Declared(entry.1)
    requires faults(entry.0) != FailForward
    ensures var units := Units(Normalize(entry.1["from_unit"]), Normalize(entry.1["to_unit"]));
      LookupIn(Step(MakeRelation, StoreConversion(cas, faults), g, entry).0, units) == Some(entry.1["formula"])
  {
    var rel := MakeRelation(entry.1).value;
    var inversion := InvertFormula(cas, rel.formula);
    InvertFormulaPlausible(cas, rel);
    LookupNormalized(StoreEffect(g, rel, inversion, faults(entry.0)).graph, rel.fromUnit, rel.toUnit);
    StoreForwardEdge(g, rel, inversion, faults(entry.0));
  }
}
