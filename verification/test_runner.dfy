/**
 * The test scorer: runs a candidate formula on numeric test cases and returns
 * the fraction that pass. `math.isclose` with the scorer's tolerances is the
 * abstract `close` relation.
 */
module TestRunner {
  import opened Wrappers
  import opened Engine

  /** A test case: an input value and the output the formula should give for it. */
  datatype TestCase = TestCase(inputValue: real, expectedOutput: real)

  /**
   * What every case of one run shares: the algebra system, the formula, the
   * name of its single input symbol and the closeness test.
   */
  datatype Setup = Setup(cas: Cas, formula: string, inputName: string, close: (real, real) -> bool)

  /**
   * `evaluate_formula(formula, **{input_var: value})`. A symbol called `formula`
   * collides with the function's own positional parameter, and Python raises.
   */
  function EvaluateAt(s: Setup, value: real): (r: Result<real, FormulaError>)
    ensures s.inputName == "formula" ==> r == Err(ArgumentClash)
    ensures s.inputName != "formula" ==> r == EvaluateFormula(s.cas, s.formula, map[s.inputName := value])
  {
    if s.inputName == "formula" then Err(ArgumentClash)
    else EvaluateFormula(s.cas, s.formula, map[s.inputName := value])
  }

  /** A case passes when evaluation succeeds and the output is close to the expected one. */
  predicate Passes(s: Setup, c: TestCase) {
    var output := EvaluateAt(s, c.inputValue);
    output.Ok? && s.close(output.value, c.expectedOutput)
  }

  /** How many of `cases` pass. */
  function PassCount(s: Setup, cases: seq<TestCase>): (n: nat)
    ensures n <= |cases|
    decreases |cases|
  {
    if cases == [] then 0
    else PassCount(s, cases[..|cases| - 1]) + (if Passes(s, cases[|cases| - 1]) then 1 else 0)
  }

  /**
   * The score `run_formula_tests` returns: parse once, insist on exactly one
   * input symbol, then the fraction of the cases that pass, an evaluation error
   * being a failing case. No cases at all is a division by zero.
   */
  function Score(cas: Cas, formula: string, cases: seq<TestCase>, close: (real, real) -> bool): (r: Result<real, FormulaError>)
    ensures ParseFormula(cas, formula).Err? ==> r == Err(ParseFormula(cas, formula).error)
    ensures ParseFormula(cas, formula).Ok? && |FreeSymbols(ParseFormula(cas, formula).value.rhs)| != 1
      ==> r == Err(Shape(|FreeSymbols(ParseFormula(cas, formula).value.rhs)|))
    ensures r == Err(DivisionByZero) <==> ParseFormula(cas, formula).Ok? && |FreeSymbols(ParseFormula(cas, formula).value.rhs)| == 1 && cases == []
    ensures r.Ok? ==> cases != [] && 0.0 <= r.value <= 1.0
  {
    match ParseFormula(cas, formula)
    case Err(e) => Err(e)
    case Ok(p) =>
      match InputSymbol(p.rhs)
      case Err(e) => Err(e)
      case Ok(x) =>
        if cases == [] then Err(DivisionByZero)
        else
          var passed := PassCount(Setup(cas, formula, x, close), cases);
          Fraction(passed, |cases|);
          Ok(passed as real / |cases| as real)
  }

  /** With a usable formula, the score is the number of passing cases over the number of cases. */
  lemma ScoreIsPassFraction(cas: Cas, formula: string, cases: seq<TestCase>, close: (real, real) -> bool, p: Parsed, x: string)
    requires ParseFormula(cas, formula) == Ok(p) && FreeSymbols(p.rhs) == {x} && cases != []
    ensures Score(cas, formula, cases, close) == Ok(PassCount(Setup(cas, formula, x, close), cases) as real / |cases| as real)
  {
    assert InputSymbol(p.rhs) == Ok(x);
  }

  /**
   * `run_formula_tests`: the passing cases are counted one by one, an
   * evaluation error skipping to the next case.
   */
  method RunFormulaTests(cas: Cas, formula: string, cases: seq<TestCase>, close: (real, real) -> bool)
    returns (r: Result<real, FormulaError>)
    ensures r == Score(cas, formula, cases, close)
  {
    var parsed := ParseFormula(cas, formula);
    if parsed.Err? {
      return Err(parsed.error);
    }
    var input := InputSymbol(parsed.value.rhs);
    if input.Err? {
      return Err(input.error);
    }
    var setup := Setup(cas, formula, input.value, close);
    var passed := 0;
    for i := 0 to |cases|
      invariant passed == PassCount(setup, cases[..i])
    {
      assert cases[..i + 1][..i] == cases[..i];
      var output := EvaluateAt(setup, cases[i].inputValue);
      if output.Err? {
        continue;
      }
      if close(output.value, cases[i].expectedOutput) {
        passed := passed + 1;
      }
    }
    assert cases[..|cases|] == cases;
    if |cases| == 0 {
      return Err(DivisionByZero);
    }
    r := Ok(passed as real / |cases| as real);
  }

  /** A count out of a positive total is a fraction between 0 and 1. */
  lemma Fraction(k: nat, n: nat)
    requires 0 < n && k <= n
    ensures 0.0 <= k as real / n as real <= 1.0
  {
    assert k as real <= n as real;
  }

  /** Counting over two runs of cases adds up. */
  lemma {:induction false} PassCountAppend(s: Setup, a: seq<TestCase>, b: seq<TestCase>)
    ensures PassCount(s, a + b) == PassCount(s, a) + PassCount(s, b)
    decreases |b|
  {
    if b == [] {
      assert a + b == a;
    } else {
      var b' := b[..|b| - 1];
      assert (a + b)[..|a + b| - 1] == a + b';
      PassCountAppend(s, a, b');
    }
  }

  /**
   * A case whose evaluation raises counts as a failure and the cases after it
   * are still counted.
   */
  lemma ErrorCaseFails(s: Setup, before: seq<TestCase>, c: TestCase, after: seq<TestCase>)
    requires EvaluateAt(s, c.inputValue).Err?
    ensures PassCount(s, before + [c] + after) == PassCount(s, before) + PassCount(s, after)
  {
    PassCountAppend(s, before + [c], after);
    PassCountAppend(s, before, [c]);
    assert [c][..0] == [];
  }

  /** The count depends only on the multiset of cases: reordering them changes nothing. */
  lemma {:induction false} PassCountPermutation(s: Setup, a: seq<TestCase>, b: seq<TestCase>)
    requires multiset(a) == multiset(b)
    ensures PassCount(s, a) == PassCount(s, b)
    decreases |a|
  {
    if a == [] {
      assert |b| == |multiset(b)| == 0;
    } else {
      var c := a[|a| - 1];
      var a' := a[..|a| - 1];
      assert a == a' + [c];
      assert c in multiset(b);
      var j :| 0 <= j < |b| && b[j] == c;
      var b' := b[..j] + b[j + 1..];
      RemoveOne(b, j);
      assert multiset(a') == multiset(a) - multiset{c};
      PassCountPermutation(s, a', b');
      PassCountAppend(s, a', [c]);
      PassCountRemove(s, b, j);
    }
  }

  /** Taking the case at `j` out of `b` takes one copy of it out of the multiset. */
  lemma RemoveOne(b: seq<TestCase>, j: nat)
    requires j < |b|
    ensures multiset(b[..j] + b[j + 1..]) == multiset(b) - multiset{b[j]}
  {
    assert b == b[..j] + [b[j]] + b[j + 1..];
  }

  /** The count of `b` is that of `b` without its case at `j`, plus one if that case passes. */
  lemma PassCountRemove(s: Setup, b: seq<TestCase>, j: nat)
    requires j < |b|
    ensures PassCount(s, b) == PassCount(s, b[..j] + b[j + 1..]) + PassCount(s, [b[j]])
  {
    assert b == b[..j] + [b[j]] + b[j + 1..];
    PassCountAppend(s, b[..j] + [b[j]], b[j + 1..]);
    PassCountAppend(s, b[..j], [b[j]]);
    PassCountAppend(s, b[..j], b[j + 1..]);
  }

  /** A candidate whose input symbol is called `formula` fails every case. */
  lemma {:induction false} ClashingNameFailsAll(s: Setup, cases: seq<TestCase>)
    requires s.inputName == "formula"
    ensures PassCount(s, cases) == 0
    decreases |cases|
  {
    if cases != [] {
      ClashingNameFailsAll(s, cases[..|cases| - 1]);
    }
  }
}
