/**
 * The agent that answers a conversion question: look the unit pair up in the
 * knowledge graph; failing that, ask whether the conversion makes sense, then
 * run up to three rounds of "ask for a formula, generate test cases, score
 * the formula", storing the first formula that scores at least 0.8.
 *
 * The language-model components are oracles given as functions; `None` is an
 * exception raised by the component. The formula writer and the case
 * generator also take the round number, so that two rounds may answer
 * differently.
 */
module UserQuery {
  import opened Wrappers
  import opened Engine
  import opened TestRunner
  import opened Neo
  import opened Text

  /** The bound on the number of rounds. */
  const MaxRounds: nat := 3

  /** What the scorer hands back: the score and the cases that failed. */
  datatype ScoreReport = ScoreReport(score: real, failed: seq<TestCase>)

  /**
   * What the formula oracle is told: nothing on the first round, afterwards
   * the previous formula, its pass count out of ten and its failing cases.
   */
  datatype Feedback = NoFeedback | Report(formula: string, passed: int, failed: seq<TestCase>)

  /** The collaborators of `KGAgent`; `None` where the component raises. */
  datatype Oracles = Oracles(
    extractUnits: string -> Option<Units>,
    isConvertible: Units -> Option<bool>,
    askFormula: (Units, Feedback, nat) -> Option<string>,
    generateTestCases: (string, nat) -> Option<seq<TestCase>>,
    runTests: (string, seq<TestCase>) -> Result<ScoreReport, FormulaError>)

  /** The language-model components, named in the exception that escapes when one raises. */
  datatype Component = UnitExtractor | Validator | FormulaWriter | CaseGenerator

  /**
   * One round: the feedback it started from, the formula proposed, its cases
   * and its score or the exception that ended it. The formula is empty when
   * the formula writer raised, and the cases are empty when no cases came back.
   */
  datatype Round = Round(feedback: Feedback, formula: string, cases: seq<TestCase>, outcome: Result<ScoreReport, Failure>)

  /** What `forward` returns: the found formula, the learned formula, `None`, or an exception. */
  datatype Answer = Found(formula: string) | Learned(formula: string) | NoAnswer | Raised(failure: Failure)

  /**
   * An exception escaping `forward`: from the scorer, from the database while
   * storing or during the first lookup, or from a language-model component.
   */
  datatype Failure = ScorerError(error: FormulaError) | StoreError | LookupError | OracleError(component: Component)

  /** The acceptance threshold: a score of at least 0.8. */
  predicate Accepted(report: ScoreReport) {
    report.score >= 0.8
  }

  /** The round was scored and fell short of the threshold. */
  predicate Rejected(r: Round) {
    r.outcome.Ok? && !Accepted(r.outcome.value)
  }

  /** The feedback built from a rejected formula: ten cases, minus the failed ones, passed. */
  function FeedbackFrom(formula: string, report: ScoreReport): (fb: Feedback)
    ensures fb.Report? && fb.formula == formula && fb.failed == report.failed
    ensures fb.passed + |fb.failed| == 10
  {
    Report(formula, 10 - |report.failed|, report.failed)
  }

  /**
   * The round the oracles play from round number `k` and feedback `fb`: ask
   * for a formula, generate its cases, score it; the first exception ends
   * the round.
   */
  function PlayRound(o: Oracles, units: Units, k: nat, fb: Feedback): Round {
    var asked := o.askFormula(units, fb, k);
    if asked.None? then Round(fb, "", [], Err(OracleError(FormulaWriter)))
    else
      var cases := o.generateTestCases(asked.value, k);
      if cases.None? then Round(fb, asked.value, [], Err(OracleError(CaseGenerator)))
      else Round(fb, asked.value, cases.value, Scored(o.runTests(asked.value, cases.value)))
  }

  /** The scorer's outcome, an exception from it named as such. */
  function Scored(outcome: Result<ScoreReport, FormulaError>): (r: Result<ScoreReport, Failure>)
    ensures r.Ok? <==> outcome.Ok?
    ensures r.Ok? ==> r.value == outcome.value
    ensures r.Err? ==> r.error == ScorerError(outcome.error)
  {
    match outcome
    case Ok(report) => Ok(report)
    case Err(e) => Err(ScorerError(e))
  }

  /**
   * The rounds played from round `k` with feedback `fb`: a round is played;
   * if it was scored and rejected, its feedback starts the next one, up to
   * the third round.
   */
  function Rounds(o: Oracles, units: Units, k: nat, fb: Feedback): (rs: seq<Round>)
    requires k <= MaxRounds
    ensures |rs| <= MaxRounds - k
    ensures k < MaxRounds ==> |rs| >= 1
    decreases MaxRounds - k
  {
    if k == MaxRounds then []
    else
      var r := PlayRound(o, units, k, fb);
      if !Rejected(r) then [r]
      else [r] + Rounds(o, units, k + 1, FeedbackFrom(r.formula, r.outcome.value))
  }

  /** One step of `Rounds`: the round played now, then, if it was rejected, the rest. */
  lemma RoundsStep(o: Oracles, units: Units, k: nat, fb: Feedback)
    requires k < MaxRounds
    ensures var r := PlayRound(o, units, k, fb);
      Rounds(o, units, k, fb) == [r] + if Rejected(r) then Rounds(o, units, k + 1, FeedbackFrom(r.formula, r.outcome.value)) else []
  {
  }

  /**
   * The first round starts from the given feedback (none, in `forward`), and
   * each round is what the oracles answer for its round number and the
   * feedback it started from.
   */
  lemma {:induction false} RoundsChain(o: Oracles, units: Units, k: nat, fb: Feedback)
    requires k < MaxRounds
    ensures var rs := Rounds(o, units, k, fb);
      && rs[0].feedback == fb
      && (forall i :: 0 <= i < |rs| ==> rs[i] == PlayRound(o, units, k + i, rs[i].feedback))
    decreases MaxRounds - k
  {
    RoundsStep(o, units, k, fb);
    var r := PlayRound(o, units, k, fb);
    var rs := Rounds(o, units, k, fb);
    if Rejected(r) && k + 1 < MaxRounds {
      var fb' := FeedbackFrom(r.formula, r.outcome.value);
      RoundsChain(o, units, k + 1, fb');
      var rest := Rounds(o, units, k + 1, fb');
      assert rs == [r] + rest;
      forall i | 1 <= i < |rs|
        ensures rs[i] == PlayRound(o, units, k + i, rs[i].feedback)
      {
        assert rs[i] == rest[i - 1];
      }
    } else {
      assert |rs| == 1;
    }
  }

  /**
   * Every round but the last was rejected, and its feedback, replacing the
   * previous one, is what the next round starts from.
   */
  lemma {:induction false} RoundsLinked(o: Oracles, units: Units, k: nat, fb: Feedback)
    requires k < MaxRounds
    ensures var rs := Rounds(o, units, k, fb);
      forall i :: 0 <= i < |rs| - 1 ==>
        Rejected(rs[i]) && rs[i + 1].feedback == FeedbackFrom(rs[i].formula, rs[i].outcome.value)
    decreases MaxRounds - k
  {
    RoundsStep(o, units, k, fb);
    var r := PlayRound(o, units, k, fb);
    var rs := Rounds(o, units, k, fb);
    if Rejected(r) && k + 1 < MaxRounds {
      var fb' := FeedbackFrom(r.formula, r.outcome.value);
      RoundsLinked(o, units, k + 1, fb');
      RoundsChain(o, units, k + 1, fb');
      var rest := Rounds(o, units, k + 1, fb');
      assert rs == [r] + rest;
      forall i | 0 <= i < |rs| - 1
        ensures Rejected(rs[i]) && rs[i + 1].feedback == FeedbackFrom(rs[i].formula, rs[i].outcome.value)
      {
        assert rs[i + 1] == rest[i];
        if i > 0 {
          assert rs[i] == rest[i - 1];
        }
      }
    } else {
      assert |rs| == 1;
    }
  }

  /**
   * The rounds stop early only at a round that was not rejected: an accepted
   * formula or a scorer exception. Otherwise all three rounds are played.
   */
  lemma {:induction false} RoundsEnd(o: Oracles, units: Units, k: nat, fb: Feedback)
    requires k < MaxRounds
    ensures var rs := Rounds(o, units, k, fb);
      |rs| < MaxRounds - k ==> !Rejected(rs[|rs| - 1])
    decreases MaxRounds - k
  {
    RoundsStep(o, units, k, fb);
    var r := PlayRound(o, units, k, fb);
    if Rejected(r) && k + 1 < MaxRounds {
      var fb' := FeedbackFrom(r.formula, r.outcome.value);
      RoundsEnd(o, units, k + 1, fb');
    }
  }

  /** An accepted round is the last one played: the agent stops at the first accepted formula. */
  lemma AcceptedIsLast(o: Oracles, units: Units, i: nat)
    requires i < |Rounds(o, units, 0, NoFeedback)|
    requires Rounds(o, units, 0, NoFeedback)[i].outcome.Ok? && Accepted(Rounds(o, units, 0, NoFeedback)[i].outcome.value)
    ensures i == |Rounds(o, units, 0, NoFeedback)| - 1
  {
    RoundsLinked(o, units, 0, NoFeedback);
  }

  /** The relation `forward` stores for an accepted formula, with `author` set. */
  function LearnedRelation(units: Units, formula: string): (rel: Relation)
    ensures ValidRelation(rel)
  {
    AuthorIsExtra();
    Relation(Normalize(units.fromUnit), Normalize(units.toUnit), formula, map["author" := "Reevan"])
  }

  /** `author` is not one of the declared fields, so pydantic keeps it as an extra. */
  lemma AuthorIsExtra()
    ensures !Reserved("author")
  {
    assert |"author"| == 6;
    assert "author"[0] != "formula"[0];
  }

  /** `ConversionRelation.model_validate` accepts the agent's four fields and builds `LearnedRelation`. */
  lemma LearnedRelationValidates(units: Units, formula: string)
    ensures MakeRelation(map["from_unit" := units.fromUnit, "to_unit" := units.toUnit, "formula" := formula, "author" := "Reevan"])
      == Some(LearnedRelation(units, formula))
  {
    var fields := map["from_unit" := units.fromUnit, "to_unit" := units.toUnit, "formula" := formula, "author" := "Reevan"];
    assert fields.Keys == {"from_unit", "to_unit", "formula", "author"};
    assert "author" in fields && !Reserved("author") && fields["author"] == "Reevan";
    assert Extras(fields).Keys == {"author"};
    assert Extras(fields) == map["author" := "Reevan"];
    assert fields["from_unit"] == units.fromUnit && fields["to_unit"] == units.toUnit && fields["formula"] == formula;
  }

  /**
   * `KGAgent.forward`. An exception from the unit extractor, the first lookup
   * session or the validator escapes with no round played and no change. On
   * a lookup hit the stored formula is returned with no further oracle
   * called and no change; when the pair is not convertible nothing happens;
   * otherwise the rounds of `Learn` are played. `lookupRaises` says whether
   * the first lookup session raises; `fault` is the session that raises
   * while storing.
   */
  method Forward(o: Oracles, cas: Cas, store: ConversionStore, question: string, lookupRaises: bool, fault: Fault)
    returns (answer: Answer, played: seq<Round>)
    modifies store
    ensures var extracted := o.extractUnits(question);
      if extracted.None? then
        answer == Raised(OracleError(UnitExtractor)) && played == [] && store.edges == old(store.edges)
      else if lookupRaises then
        answer == Raised(LookupError) && played == [] && store.edges == old(store.edges)
      else
        var units := extracted.value;
        var hit := LookupIn(old(store.edges), units);
        if Truthy(hit) then
          answer == Found(hit.value) && played == [] && store.edges == old(store.edges)
        else if o.isConvertible(units).None? then
          answer == Raised(OracleError(Validator)) && played == [] && store.edges == old(store.edges)
        else if !o.isConvertible(units).value then
          answer == NoAnswer && played == [] && store.edges == old(store.edges)
        else
          played == Rounds(o, units, 0, NoFeedback) && LearnOutcome(cas, old(store.edges), units, played, fault) == (store.edges, answer)
    ensures old(store.Valid()) ==> store.Valid()
  {
    var extracted := o.extractUnits(question);
    if extracted.None? {
      return Raised(OracleError(UnitExtractor)), [];
    }
    var units := extracted.value;
    if lookupRaises {
      return Raised(LookupError), [];
    }
    var formula := LookupIn(store.edges, units);
    if Truthy(formula) {
      return Found(formula.value), [];
    }
    var valid := o.isConvertible(units);
    if valid.None? {
      return Raised(OracleError(Validator)), [];
    }
    if !valid.value {
      return NoAnswer, [];
    }
    answer, played := Learn(o, cas, store, units, fault);
  }

  /**
   * How the rounds end: an exception from the formula writer, the case
   * generator or the scorer escapes with the graph unchanged;
   * an accepted last round is stored, and answered unless the store raised;
   * three rejected rounds give `None` with the graph unchanged.
   */
  function LearnOutcome(cas: Cas, g: Graph, units: Units, played: seq<Round>, fault: Fault): (Graph, Answer)
    requires played != []
  {
    Ending(cas, g, units, played[|played| - 1], fault)
  }

  /** How a round that was not rejected ends the rounds. */
  function Ending(cas: Cas, g: Graph, units: Units, last: Round, fault: Fault): (Graph, Answer) {
    match last.outcome
    case Err(failure) => (g, Raised(failure))
    case Ok(report) =>
      if Accepted(report) then Settle(cas, g, units, last.formula, fault)
      else (g, NoAnswer)
  }

  /** An accepted formula is stored with `author` set; the answer is the formula unless the store raised. */
  function Settle(cas: Cas, g: Graph, units: Units, formula: string, fault: Fault): (Graph, Answer) {
    var rel := LearnedRelation(units, formula);
    var s := StoreEffect(g, rel, InvertFormula(cas, rel.formula), fault);
    (s.graph, if s.raised then Raised(StoreError) else Learned(formula))
  }

  /**
   * The bounded loop of `forward`: up to three rounds, each rejected round's
   * feedback replacing the previous one, stopping at the first round that was
   * not rejected.
   */
  method PlayRounds(o: Oracles, units: Units) returns (played: seq<Round>)
    ensures played == Rounds(o, units, 0, NoFeedback)
  {
    var k := 0;
    var feedback := NoFeedback;
    played := [];
    while k < MaxRounds
      invariant 0 <= k <= MaxRounds && |played| == k
      invariant Rounds(o, units, 0, NoFeedback) == played + Rounds(o, units, k, feedback)
    {
      var round;
      var asked := o.askFormula(units, feedback, k);
      if asked.None? {
        round := Round(feedback, "", [], Err(OracleError(FormulaWriter)));
      } else {
        var cases := o.generateTestCases(asked.value, k);
        if cases.None? {
          round := Round(feedback, asked.value, [], Err(OracleError(CaseGenerator)));
        } else {
          var outcome := o.runTests(asked.value, cases.value);
          round := Round(feedback, asked.value, cases.value, Scored(outcome));
        }
      }
      assert round == PlayRound(o, units, k, feedback);
      if !Rejected(round) {
        RoundsStop(o, units, k, feedback, played);
        played := played + [round];
        return;
      }
      var next := FeedbackFrom(round.formula, round.outcome.value);
      RoundsGo(o, units, k, feedback, played);
      played := played + [round];
      feedback := next;
      k := k + 1;
    }
    assert Rounds(o, units, k, feedback) == [];
  }

  /**
   * The rounds of `forward` and how they end. The store that follows an
   * accepted round is the last thing the loop does before returning, so it
   * is taken after the loop here.
   */
  method Learn(o: Oracles, cas: Cas, store: ConversionStore, units: Units, fault: Fault)
    returns (answer: Answer, played: seq<Round>)
    modifies store
    ensures played == Rounds(o, units, 0, NoFeedback)
    ensures played != [] && LearnOutcome(cas, old(store.edges), units, played, fault) == (store.edges, answer)
    ensures old(store.Valid()) ==> store.Valid()
  {
    played := PlayRounds(o, units);
    var last := played[|played| - 1];
    ghost var outcome := LearnOutcome(cas, store.edges, units, played, fault);
    assert outcome == Ending(cas, store.edges, units, last, fault);
    if Rejected(last) {
      assert outcome == (store.edges, NoAnswer);
      return NoAnswer, played;
    }
    answer := Conclude(cas, store, units, last, fault);
  }

  /**
   * The end of the rounds: an exception escapes; an accepted formula is
   * stored with `author` set and answered unless the store raised.
   */
  method Conclude(cas: Cas, store: ConversionStore, units: Units, last: Round, fault: Fault) returns (answer: Answer)
    requires !Rejected(last)
    modifies store
    ensures (store.edges, answer) == Ending(cas, old(store.edges), units, last, fault)
    ensures old(store.Valid()) ==> store.Valid()
  {
    if last.outcome.Err? {
      return Raised(last.outcome.error);
    }
    var raised := store.Store(cas, LearnedRelation(units, last.formula), fault);
    answer := if raised then Raised(StoreError) else Learned(last.formula);
  }

  /** The loop's bookkeeping when round `k` ends the rounds. */
  lemma RoundsStop(o: Oracles, units: Units, k: nat, fb: Feedback, played: seq<Round>)
    requires k < MaxRounds && Rounds(o, units, 0, NoFeedback) == played + Rounds(o, units, k, fb)
    requires !Rejected(PlayRound(o, units, k, fb))
    ensures Rounds(o, units, 0, NoFeedback) == played + [PlayRound(o, units, k, fb)]
  {
    RoundsStep(o, units, k, fb);
  }

  /** The loop's bookkeeping when round `k` is rejected and the next round follows. */
  lemma RoundsGo(o: Oracles, units: Units, k: nat, fb: Feedback, played: seq<Round>)
    requires k < MaxRounds && Rounds(o, units, 0, NoFeedback) == played + Rounds(o, units, k, fb)
    requires Rejected(PlayRound(o, units, k, fb))
    ensures var r := PlayRound(o, units, k, fb);
      Rounds(o, units, 0, NoFeedback) == (played + [r]) + Rounds(o, units, k + 1, FeedbackFrom(r.formula, r.outcome.value))
  {
    RoundsStep(o, units, k, fb);
    var r := PlayRound(o, units, k, fb);
    var rest := Rounds(o, units, k + 1, FeedbackFrom(r.formula, r.outcome.value));
    assert played + ([r] + rest) == (played + [r]) + rest;
  }

  /** The threshold is inclusive: out of ten cases, eight passing is accepted and seven is not. */
  lemma ThresholdOutOfTen(passed: nat, failed: seq<TestCase>)
    requires passed <= 10
    ensures Accepted(ScoreReport(passed as real / 10.0, failed)) <==> passed >= 8
  {
  }

  /** The graph changes only when the last round was accepted. */
  lemma ChangesOnlyWhenAccepted(cas: Cas, g: Graph, units: Units, played: seq<Round>, fault: Fault)
    requires played != []
    requires LearnOutcome(cas, g, units, played, fault).0 != g
    ensures played[|played| - 1].outcome.Ok? && Accepted(played[|played| - 1].outcome.value)
  {
  }

  /** A learned formula is in the graph afterwards, under the normalized unit names. */
  lemma LearnedIsFound(cas: Cas, g: Graph, units: Units, played: seq<Round>, fault: Fault)
    requires played != []
    requires LearnOutcome(cas, g, units, played, fault).1.Learned?
    ensures var formula := LearnOutcome(cas, g, units, played, fault).1.formula;
      LookupIn(LearnOutcome(cas, g, units, played, fault).0, Units(Normalize(units.fromUnit), Normalize(units.toUnit)))
        == Some(formula)
  {
    var last := played[|played| - 1];
    var rel := LearnedRelation(units, last.formula);
    var inversion := InvertFormula(cas, rel.formula);
    var s := StoreEffect(g, rel, inversion, fault);
    assert last.outcome.Ok? && Accepted(last.outcome.value);
    assert LearnOutcome(cas, g, units, played, fault) == Settle(cas, g, units, last.formula, fault);
    assert fault != FailForward by {
      assert !s.raised;
    }
    InvertFormulaPlausible(cas, rel);
    LowerNoUpper(rel.fromUnit);
    LowerNoUpper(rel.toUnit);
    LookupAfterStore(g, rel, inversion, fault, Units(rel.fromUnit, rel.toUnit));
  }

  /**
   * Asking again: when the unit extractor names units that lower-case to the
   * stored names, the first lookup of `forward` reads the learned formula. It
   * is a hit, and `Forward` answers `Found` with no round played, exactly when
   * that formula is not empty; an empty one sends `forward` into the rounds
   * again.
   */
  lemma AskAgainFinds(cas: Cas, g: Graph, units: Units, played: seq<Round>, fault: Fault, again: Units)
    requires played != []
    requires LearnOutcome(cas, g, units, played, fault).1.Learned?
    requires Lower(again.fromUnit) == Normalize(units.fromUnit) && Lower(again.toUnit) == Normalize(units.toUnit)
    ensures var outcome := LearnOutcome(cas, g, units, played, fault);
      && LookupIn(outcome.0, again) == Some(outcome.1.formula)
      && (Truthy(LookupIn(outcome.0, again)) <==> outcome.1.formula != "")
  {
    LearnedIsFound(cas, g, units, played, fault);
    LowerNoUpper(Normalize(units.fromUnit));
    LowerNoUpper(Normalize(units.toUnit));
  }
}
