/**
 * Formula algebra: reading a formula `output = expression(input)`, evaluating it
 * at given input values, and inverting it into `input = expression(output)`.
 *
 * The computer-algebra system is a `Cas` record of three functions: `sympify`
 * (text to expression, or no expression when the text does not parse), `solve`
 * (the list of solutions of `lhs = rhs` for one symbol) and `show` (how an
 * expression prints). Expressions are a small tree over rational literals and
 * named symbols; their free symbols and their value are computed here.
 */
module Engine {
  import opened Wrappers
  import opened Text

  type Positive = n: int | n > 0 witness 1

  /** An expression as the algebra system hands it back. */
  datatype Expr =
    | Num(num: int, den: Positive)
    | Sym(name: string)
    | Bin(op: BinOp, left: Expr, right: Expr)
    | Pow(base: Expr, exponent: int)

  /** The binary operators `+ - * /`. */
  datatype BinOp = Plus | Minus | Times | Over

  /** The collaborating algebra system (sympy), as three functions. */
  datatype Cas = Cas(
    sympify: string -> Option<Expr>,
    solve: (Expr, Expr, string) -> seq<Expr>,
    show: Expr -> string)

  /** The exceptions of the formula algebra and of its callers. */
  datatype FormulaError =
    | Unpack(parts: nat)   // `lhs, rhs = formula.split("=")` with other than two parts
    | NoSymbols            // `symbols("")`: the left side is empty once stripped
    | Unparsable           // `sympify` rejected the right-hand side
    | Shape(count: nat)    // the right-hand side does not have exactly one free symbol
    | NoSolution           // `solve` returned an empty list
    | NotReal              // `float()` of a result that is not a real number
    | DivisionByZero       // `passed / len(test_cases)` with no test cases
    | ArgumentClash        // keyword argument `formula` given twice

  /** What `parse_formula` returns: the left-hand name and the right-hand expression. */
  datatype Parsed = Parsed(lhsName: string, rhs: Expr)

  function FreeSymbols(e: Expr): set<string> {
    match e
    case Num(_, _) => {}
    case Sym(x) => {x}
    case Bin(_, a, b) => FreeSymbols(a) + FreeSymbols(b)
    case Pow(a, _) => FreeSymbols(a)
  }

  function Power(x: real, n: nat): (r: real)
    ensures x != 0.0 ==> r != 0.0
  {
    if n == 0 then 1.0 else x * Power(x, n - 1)
  }

  /**
   * `float(expr.subs(env))`: the real value of `e` once every symbol bound in
   * `env` is replaced by its value, or None where `float()` raises (a symbol
   * left unbound, a division by zero, zero to a negative power).
   */
  function Eval(e: Expr, env: map<string, real>): (r: Option<real>)
    ensures r.Some? ==> FreeSymbols(e) <= env.Keys
  {
    match e
    case Num(n, d) => Some(n as real / d as real)
    case Sym(x) => if x in env then Some(env[x]) else None
    case Bin(op, a, b) =>
      var u, v := Eval(a, env), Eval(b, env);
      if u.Some? && v.Some? then Apply(op, u.value, v.value) else None
    case Pow(a, k) =>
      var u := Eval(a, env);
      if u.Some? then Raise(u.value, k) else None
  }

  /** One operator on two values; dividing by zero has no real value. */
  function Apply(op: BinOp, u: real, v: real): Option<real> {
    match op
    case Plus => Some(u + v)
    case Minus => Some(u - v)
    case Times => Some(u * v)
    case Over => if v == 0.0 then None else Some(u / v)
  }

  /** `u ** k` for an integer exponent; zero to a negative power has no real value. */
  function Raise(u: real, k: int): Option<real> {
    if k >= 0 then Some(Power(u, k))
    else if u == 0.0 then None
    else Some(1.0 / Power(u, -k))
  }

  /** `env` and `env'` bind the same names in `names`, to the same values. */
  predicate AgreeOn(names: set<string>, env: map<string, real>, env': map<string, real>) {
    forall x :: x in names ==> (x in env <==> x in env') && (x in env ==> env[x] == env'[x])
  }

  /** Values given for names that are not free symbols of `e` play no part. */
  lemma {:induction false} EvalIgnoresOtherInputs(e: Expr, env: map<string, real>, env': map<string, real>)
    requires AgreeOn(FreeSymbols(e), env, env')
    ensures Eval(e, env) == Eval(e, env')
  {
    match e
    case Num(_, _) =>
    case Sym(_) =>
    case Bin(_, a, b) => EvalIgnoresOtherInputs(a, env, env'); EvalIgnoresOtherInputs(b, env, env');
    case Pow(a, _) => EvalIgnoresOtherInputs(a, env, env');
  }

  /** `rhs.replace('×', '*').replace('÷', '/')`. */
  function Dealias(s: string): (r: string)
    ensures |r| == |s|
    ensures '×' !in r && '÷' !in r
    ensures forall i :: 0 <= i < |s| && s[i] != '×' && s[i] != '÷' ==> r[i] == s[i]
    ensures forall i :: 0 <= i < |s| && s[i] == '×' ==> r[i] == '*'
    ensures forall i :: 0 <= i < |s| && s[i] == '÷' ==> r[i] == '/'
  {
    ReplaceChar(ReplaceChar(s, '×', '*'), '÷', '/')
  }

  /** Text already free of the two aliases is handed to `sympify` unchanged. */
  lemma DealiasKeeps(s: string)
    requires '×' !in s && '÷' !in s
    ensures Dealias(s) == s
  {
  }

  /**
   * `parse_formula`: split on `=`, strip both sides, make the left side a
   * symbol (which fails on an empty name), rewrite the aliases, parse the right side.
   */
  function ParseFormula(cas: Cas, formula: string): (r: Result<Parsed, FormulaError>)
    ensures Count(formula, '=') != 1 ==> r == Err(Unpack(Count(formula, '=') + 1))
    ensures r.Ok? ==> Trimmed(r.value.lhsName) && '=' !in r.value.lhsName && r.value.lhsName != ""
  {
    var parts := Split(formula, '=');
    if |parts| != 2 then Err(Unpack(|parts|))
    else if Strip(parts[0]) == "" then Err(NoSymbols)
    else
      match cas.sympify(Dealias(Strip(parts[1])))
      case None => Err(Unparsable)
      case Some(e) =>
        StripAbsent(parts[0], '=');
        Ok(Parsed(Strip(parts[0]), e))
  }

  /**
   * A formula `a=b` (no other `=`) is read as: the name `a.strip()` on the left,
   * which must not be empty, and on the right whatever `sympify` makes of
   * `b.strip()` with the aliases rewritten.
   */
  lemma ParseEquation(cas: Cas, a: string, b: string)
    requires '=' !in a && '=' !in b
    ensures var rhsText := Dealias(Strip(b));
      ParseFormula(cas, a + "=" + b)
        == if Strip(a) == "" then Err(NoSymbols)
           else if cas.sympify(rhsText).None? then Err(Unparsable)
           else Ok(Parsed(Strip(a), cas.sympify(rhsText).value))
  {
    SplitTwo(a, '=', b);
  }

  /** `evaluate_formula(formula, **inputs)`. */
  function EvaluateFormula(cas: Cas, formula: string, inputs: map<string, real>): (r: Result<real, FormulaError>)
    ensures ParseFormula(cas, formula).Err? ==> r == Err(ParseFormula(cas, formula).error)
    ensures r.Ok? ==> FreeSymbols(ParseFormula(cas, formula).value.rhs) <= inputs.Keys
  {
    match ParseFormula(cas, formula)
    case Err(e) => Err(e)
    case Ok(p) =>
      var v := Eval(p.rhs, inputs);
      if v.None? then Err(NotReal)
      else
        Ok(v.value)
  }

  /** Once `parse_formula` succeeds, the value is that of the right-hand expression. */
  lemma EvaluateParsed(cas: Cas, formula: string, p: Parsed, inputs: map<string, real>)
    requires ParseFormula(cas, formula) == Ok(p)
    ensures EvaluateFormula(cas, formula, inputs)
      == if Eval(p.rhs, inputs).Some? then Ok(Eval(p.rhs, inputs).value) else Err(NotReal)
  {
  }

  /**
   * The left-hand name plays no part in the value, as long as there is one: two
   * formulas that differ only on the left of `=`, both with a name there,
   * evaluate alike.
   */
  lemma EvaluateIgnoresLhs(cas: Cas, a: string, a': string, b: string, inputs: map<string, real>)
    requires '=' !in a && '=' !in a' && '=' !in b
    ensures Strip(a) != "" && Strip(a') != "" ==>
      EvaluateFormula(cas, a + "=" + b, inputs) == EvaluateFormula(cas, a' + "=" + b, inputs)
  {
    ParseEquation(cas, a, b);
    ParseEquation(cas, a', b);
  }

  /**
   * A left side that is empty or all white space names no symbol: parsing,
   * evaluating and inverting all fail with that error, whatever the right side.
   */
  lemma BlankNameRejected(cas: Cas, a: string, b: string, inputs: map<string, real>)
    requires '=' !in a && '=' !in b && AllSpace(a)
    ensures ParseFormula(cas, a + "=" + b) == Err(NoSymbols)
    ensures EvaluateFormula(cas, a + "=" + b, inputs) == Err(NoSymbols)
    ensures InvertFormula(cas, a + "=" + b) == Err(NoSymbols)
  {
    TrimStartEmpty(a);
    ParseEquation(cas, a, b);
  }

  lemma SingletonElement(s: set<string>, x: string, y: string)
    requires |s| == 1 && x in s && y in s
    ensures x == y
  {
    assert |s - {x}| == |s| - 1;
    assert s - {x} == {};
  }

  /** `rhs_vars = list(expr.free_symbols)` followed by the `len(rhs_vars) != 1` check. */
  function InputSymbol(e: Expr): (r: Result<string, FormulaError>)
    ensures r.Ok? <==> |FreeSymbols(e)| == 1
    ensures r.Ok? ==> FreeSymbols(e) == {r.value}
    ensures r.Err? ==> r.error == Shape(|FreeSymbols(e)|)
  {
    var vs := FreeSymbols(e);
    if |vs| != 1 then Err(Shape(|vs|))
    else
      assert forall x, y | x in vs && y in vs :: x == y by {
        forall x, y | x in vs && y in vs ensures x == y { SingletonElement(vs, x, y); }
      }
      var x :| x in vs;
      assert vs == {x} by {
        forall y | y in vs ensures y == x { SingletonElement(vs, x, y); }
      }
      Ok(x)
  }

  /** `invert_formula`: solve `lhs = rhs` for the single right-hand symbol, keep the first solution. */
  function InvertFormula(cas: Cas, formula: string): (r: Result<string, FormulaError>)
    ensures ParseFormula(cas, formula).Err? ==> r == Err(ParseFormula(cas, formula).error)
    ensures r.Ok? ==> ParseFormula(cas, formula).Ok? && |FreeSymbols(ParseFormula(cas, formula).value.rhs)| == 1
    ensures r.Ok? ==> '=' in formula && '=' in r.value
  {
    CountAbsent(formula, '=');
    match ParseFormula(cas, formula)
    case Err(e) => Err(e)
    case Ok(p) =>
      match InputSymbol(p.rhs)
      case Err(e) => Err(e)
      case Ok(x) =>
        var solutions := cas.solve(Sym(p.lhsName), p.rhs, x);
        if |solutions| == 0 then Err(NoSolution)
        else
          var inverse := x + " = " + cas.show(solutions[0]);
          assert inverse[|x| + 1] == '=';
          Ok(inverse)
  }

  /**
   * A right-hand side with zero or several free symbols is refused before any
   * solving: the outcome is the shape error whatever the solver would answer.
   */
  lemma InvertChecksShapeFirst(cas: Cas, formula: string, p: Parsed, solve': (Expr, Expr, string) -> seq<Expr>)
    requires ParseFormula(cas, formula) == Ok(p)
    requires |FreeSymbols(p.rhs)| != 1
    ensures InvertFormula(cas, formula) == Err(Shape(|FreeSymbols(p.rhs)|))
    ensures InvertFormula(cas.(solve := solve'), formula) == InvertFormula(cas, formula)
  {
    assert ParseFormula(cas.(solve := solve'), formula) == ParseFormula(cas, formula);
  }

  /**
   * Once the shape check passes: no solution is an error, otherwise the result
   * is `<input symbol> = <first solution as printed>`.
   */
  lemma InvertOutcome(cas: Cas, formula: string, p: Parsed, x: string)
    requires ParseFormula(cas, formula) == Ok(p)
    requires FreeSymbols(p.rhs) == {x}
    ensures var solutions := cas.solve(Sym(p.lhsName), p.rhs, x);
      InvertFormula(cas, formula)
        == if solutions == [] then Err(NoSolution) else Ok(x + " = " + cas.show(solutions[0]))
  {
    assert InputSymbol(p.rhs) == Ok(x);
  }

  /** A symbol name as sympy prints it: not empty, no white space and no `=`. */
  predicate PlainName(x: string) {
    x != "" && NoSpace(x) && '=' !in x
  }

  predicate AllPlain(e: Expr) {
    forall x :: x in FreeSymbols(e) ==> PlainName(x)
  }

  /** Printed text that `parse_formula` hands back to `sympify` untouched. */
  predicate Printable(t: string) {
    Trimmed(t) && '=' !in t && '×' !in t && '÷' !in t
  }

  /** `sol` undoes `e`: putting `sol`'s value at `y = u` in for `x` gives `u` back. */
  ghost predicate RightInverse(sol: Expr, y: string, e: Expr, x: string) {
    forall u: real :: Eval(sol, map[y := u]).Some? ==> Eval(e, map[x := Eval(sol, map[y := u]).value]) == Some(u)
  }

  /**
   * What the model assumes of a well-behaved algebra system: printing an
   * expression over plain names gives text that reads back as the same
   * expression; parsed text only names plain symbols; and the first solution
   * of `y = e` for another symbol `x` mentions only `y` and undoes `e`.
   */
  ghost predicate FaithfulCas(cas: Cas) {
    && (forall e :: AllPlain(e) ==> Printable(cas.show(e)) && cas.sympify(cas.show(e)) == Some(e))
    && (forall t :: cas.sympify(t).Some? ==> AllPlain(cas.sympify(t).value))
    && (forall y, e, x :: y != x && |cas.solve(Sym(y), e, x)| > 0 ==>
          FreeSymbols(cas.solve(Sym(y), e, x)[0]) <= {y} && RightInverse(cas.solve(Sym(y), e, x)[0], y, e, x))
  }

  lemma PlainIsTrimmed(x: string)
    requires PlainName(x)
    ensures Trimmed(x)
  {
  }

  /** `parse_formula` reads `x = text` back as the name `x` and what `sympify` makes of `text`. */
  lemma ParsePrintedFormula(cas: Cas, x: string, text: string, e: Expr)
    requires PlainName(x) && Printable(text) && cas.sympify(text) == Some(e)
    ensures ParseFormula(cas, x + " = " + text) == Ok(Parsed(x, e))
  {
    assert x + " = " + text == (x + " ") + "=" + (" " + text);
    ParseEquation(cas, x + " ", " " + text);
    StripTrailingBlank(x);
    PlainIsTrimmed(x);
    StripTrimmed(x);
    StripLeadingBlank(text);
    StripTrimmed(text);
    DealiasKeeps(text);
  }

  /**
   * Round trip: with a well-behaved algebra system, the inverted formula reads
   * back with the input symbol on its left, and evaluating the original formula
   * at the inverse's value returns the value the inverse started from.
   */
  lemma InverseUndoesFormula(cas: Cas, formula: string, p: Parsed, x: string, u: real)
    requires FaithfulCas(cas)
    requires ParseFormula(cas, formula) == Ok(p)
    requires FreeSymbols(p.rhs) == {x}
    requires PlainName(p.lhsName) && p.lhsName != x
    requires InvertFormula(cas, formula).Ok?
    ensures var inverse := InvertFormula(cas, formula).value;
      && ParseFormula(cas, inverse).Ok?
      && ParseFormula(cas, inverse).value.lhsName == x
      && (EvaluateFormula(cas, inverse, map[p.lhsName := u]).Ok? ==>
            EvaluateFormula(cas, formula, map[x := EvaluateFormula(cas, inverse, map[p.lhsName := u]).value]) == Ok(u))
  {
    var y := p.lhsName;
    var parts := Split(formula, '=');
    var rhsText := Dealias(Strip(parts[1]));
    assert cas.sympify(rhsText) == Some(p.rhs);
    assert AllPlain(p.rhs);
    assert PlainName(x);
    var solutions := cas.solve(Sym(y), p.rhs, x);
    InvertOutcome(cas, formula, p, x);
    assert solutions != [];
    var sol := solutions[0];
    assert FreeSymbols(sol) <= {y} && RightInverse(sol, y, p.rhs, x);
    assert AllPlain(sol);
    var text := cas.show(sol);
    assert Printable(text) && cas.sympify(text) == Some(sol);
    var inverse := x + " = " + text;
    assert InvertFormula(cas, formula) == Ok(inverse);
    ParsePrintedFormula(cas, x, text, sol);
    var v := Eval(sol, map[y := u]);
    if v.Some? {
      assert EvaluateFormula(cas, inverse, map[y := u]) == Ok(v.value);
      assert Eval(p.rhs, map[x := v.value]) == Some(u);
    }
  }

  /** The right side of the documented example, `centimeters / 100`. */
  function CentimetersToMeters(): Expr {
    Bin(Over, Sym("centimeters"), Num(100, 1))
  }

  /**
   * The formula of the documentation, `meters = centimeters / 100`, with its
   * two sides. The strings are parameters pinned by this predicate rather than
   * literals in the lemmas below, so that the solver reasons about them as
   * opaque values joined by one equation instead of unfolding long literals.
   */
  predicate DocumentedFormula(formula: string, lhs: string, rhsText: string) {
    formula == "meters = centimeters / 100" && lhs == "meters" && rhsText == "centimeters / 100"
  }

  /** The documented formula is its left name, ` = `, and its right text. */
  lemma DocumentedFormulaJoin(formula: string, lhs: string, rhsText: string)
    requires DocumentedFormula(formula, lhs, rhsText)
    ensures formula == lhs + " = " + rhsText
  {
  }

  /** Both sides of the documented formula are as `show` prints them. */
  lemma DocumentedFormulaNames(lhs: string, rhsText: string)
    requires lhs == "meters" && rhsText == "centimeters / 100"
    ensures PlainName(lhs) && Printable(rhsText)
  {
    assert rhsText[0] == 'c' && rhsText[|rhsText| - 1] == '0';
  }

  /** The documented formula reads as the name `meters` and the expression `centimeters / 100`. */
  lemma ParseExample(cas: Cas, formula: string, lhs: string, rhsText: string)
    requires DocumentedFormula(formula, lhs, rhsText)
    requires cas.sympify(rhsText) == Some(CentimetersToMeters())
    ensures ParseFormula(cas, formula) == Ok(Parsed(lhs, CentimetersToMeters()))
  {
    DocumentedFormulaJoin(formula, lhs, rhsText);
    DocumentedFormulaNames(lhs, rhsText);
    ParsePrintedFormula(cas, lhs, rhsText, CentimetersToMeters());
  }

  /**
   * The example of `evaluate_formula`'s documentation: `centimeters=250` on
   * `meters = centimeters / 100` gives 2.5.
   */
  lemma EvaluateExample(cas: Cas, formula: string, lhs: string, rhsText: string)
    requires DocumentedFormula(formula, lhs, rhsText)
    requires cas.sympify(rhsText) == Some(CentimetersToMeters())
    ensures EvaluateFormula(cas, formula, map["centimeters" := 250.0]) == Ok(2.5)
  {
    ParseExample(cas, formula, lhs, rhsText);
    CentimetersAt250();
    EvaluateParsed(cas, formula, Parsed(lhs, CentimetersToMeters()), map["centimeters" := 250.0]);
  }

  /** `centimeters / 100` at `centimeters = 250` is 2.5. */
  lemma CentimetersAt250()
    ensures Eval(CentimetersToMeters(), map["centimeters" := 250.0]) == Some(2.5)
  {
    var env := map["centimeters" := 250.0];
    assert Eval(Sym("centimeters"), env) == Some(250.0);
    assert Eval(Num(100, 1), env) == Some(100.0);
    assert Apply(Over, 250.0, 100.0) == Some(2.5);
  }

  /**
   * The example of `invert_formula`'s documentation: `meters = centimeters / 100`
   * inverts to `centimeters = <printed solution>`, and the solution
   * `meters * 100` undoes the original formula.
   */
  lemma InvertExample(cas: Cas, formula: string, lhs: string, rhsText: string)
    requires DocumentedFormula(formula, lhs, rhsText)
    requires cas.sympify(rhsText) == Some(CentimetersToMeters())
    requires cas.solve(Sym("meters"), CentimetersToMeters(), "centimeters") == [Bin(Times, Sym("meters"), Num(100, 1))]
    ensures InvertFormula(cas, formula) == Ok("centimeters" + " = " + cas.show(Bin(Times, Sym("meters"), Num(100, 1))))
    ensures RightInverse(Bin(Times, Sym("meters"), Num(100, 1)), "meters", CentimetersToMeters(), "centimeters")
  {
    var p := Parsed(lhs, CentimetersToMeters());
    assert ParseFormula(cas, formula) == Ok(p) by {
      ParseExample(cas, formula, lhs, rhsText);
    }
    CentimetersOnly();
    InvertOutcome(cas, formula, p, "centimeters");
    TimesHundredUndoes();
  }

  /** The only free symbol of `centimeters / 100` is `centimeters`. */
  lemma CentimetersOnly()
    ensures FreeSymbols(CentimetersToMeters()) == {"centimeters"}
  {
    assert FreeSymbols(Num(100, 1)) == {};
  }

  lemma TimesHundredUndoes()
    ensures RightInverse(Bin(Times, Sym("meters"), Num(100, 1)), "meters", CentimetersToMeters(), "centimeters")
  {
    var solution := Bin(Times, Sym("meters"), Num(100, 1));
    forall u: real | Eval(solution, map["meters" := u]).Some?
      ensures Eval(CentimetersToMeters(), map["centimeters" := Eval(solution, map["meters" := u]).value]) == Some(u)
    {
      assert Eval(Sym("meters"), map["meters" := u]) == Some(u);
      assert Eval(Num(100, 1), map["meters" := u]) == Some(100.0);
      assert Eval(solution, map["meters" := u]) == Some(u * 100.0);
      assert Eval(Sym("centimeters"), map["centimeters" := u * 100.0]) == Some(u * 100.0);
      assert Eval(Num(100, 1), map["centimeters" := u * 100.0]) == Some(100.0);
      assert Eval(CentimetersToMeters(), map["centimeters" := u * 100.0]) == Some(u * 100.0 / 100.0);
    }
  }


}
