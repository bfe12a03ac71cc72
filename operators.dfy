/** Big operators (sum and product) with their bounds, as they appear inside
    equations (src/operators.rs). */
module Operators {
  import Strings


  /** Rust's `i32`. */
  newtype i32 = x: int | -0x8000_0000 <= x < 0x8000_0000

  /** A bound or index variable: a name or an integer literal. */
  datatype VarOrImm = Var(name: string) | Imm(value: i32)

  /** `Sum(variable, begin, end)` and `Product(variable, begin, end)`. */
  datatype Operator = Sum(VarOrImm, VarOrImm, VarOrImm) | Product(VarOrImm, VarOrImm, VarOrImm)

  // Decimal numerals, as `format!("{}", n)` writes an integer.

  predicate IsDigit(c: char) {
    '0' <= c <= '9'
  }

  predicate IsDigits(s: string) {
    |s| > 0 && forall i | 0 <= i < |s| :: IsDigit(s[i])
  }

  /** A numeral: digits, optionally preceded by '-'. */
  predicate IsNumeral(s: string) {
    if |s| > 0 && s[0] == '-' then IsDigits(s[1..]) else IsDigits(s)
  }

  function DigitChar(d: nat): (c: char)
    requires d < 10
    ensures IsDigit(c) && c as int - '0' as int == d
  {
    "0123456789"[d]
  }

  /** The decimal numeral of a natural number, without leading zeros. */
  function NatToDecimal(n: nat): (s: string)
    ensures IsDigits(s)
    ensures |s| > 1 ==> s[0] != '0'
  {
    if n < 10 then [DigitChar(n)] else NatToDecimal(n / 10) + [DigitChar(n % 10)]
  }

  /** The decimal numeral of an integer; '-' leads it exactly when n < 0. */
  function IntToDecimal(n: int): (s: string)
    ensures IsNumeral(s)
    ensures |s| > 0 && (s[0] == '-' <==> n < 0)
    ensures var d := if s[0] == '-' then s[1..] else s; |d| > 1 ==> d[0] != '0'
  {
    if n < 0 then "-" + NatToDecimal(-n) else NatToDecimal(n)
  }

  /** The value a string of digits denotes (the reader of a numeral). */
  function DigitsValue(s: string): nat
    requires IsDigits(s)
  {
    var last := s[|s| - 1] as int - '0' as int;
    if |s| == 1 then last else DigitsValue(s[..|s| - 1]) * 10 + last
  }

  function NumeralValue(s: string): int
    requires IsNumeral(s)
  {
    if |s| > 0 && s[0] == '-' then -(DigitsValue(s[1..]) as int) else DigitsValue(s)
  }

  lemma {:induction false} NatToDecimalRoundTrip(n: nat)
    ensures DigitsValue(NatToDecimal(n)) == n
  {
    if n >= 10 {
      var s := NatToDecimal(n);
      assert s[..|s| - 1] == NatToDecimal(n / 10);
      NatToDecimalRoundTrip(n / 10);
    }
  }

  /** Reading back the numeral of n gives n. */
  lemma {:induction false} IntToDecimalRoundTrip(n: int)
    ensures NumeralValue(IntToDecimal(n)) == n
  {
    var s := IntToDecimal(n);
    if n < 0 {
      var d := NatToDecimal(-n);
      assert s == "-" + d;
      assert s[1..] == d;
      NatToDecimalRoundTrip(-n);
    } else {
      assert s == NatToDecimal(n);
      NatToDecimalRoundTrip(n);
    }
  }

  /** `VarOrImm::new` on a `&str`: a variable that prints as the string. */
  function NewVar(s: string): (v: VarOrImm)
    ensures v.Var? && GetVal(v) == s
  {
    Var(s)
  }

  /** `VarOrImm::new` on an `i32`: a literal whose printed form reads back as n. */
  function NewImm(n: i32): (v: VarOrImm)
    ensures v.Imm? && IsNumeral(GetVal(v)) && NumeralValue(GetVal(v)) == n as int
  {
    IntToDecimalRoundTrip(n as int);
    Imm(n)
  }

  /** The text of a bound: the name verbatim, or the decimal numeral. */
  function GetVal(v: VarOrImm): (s: string)
    ensures v.Var? ==> s == v.name
    ensures v.Imm? ==> IsNumeral(s) && NumeralValue(s) == v.value as int && (s[0] == '-' <==> v.value < 0)
    ensures v.Imm? ==> var d := if s[0] == '-' then s[1..] else s; |d| > 1 ==> d[0] != '0'
  {
    match v
    case Var(x) => x
    case Imm(n) => IntToDecimalRoundTrip(n as int); IntToDecimal(n as int)
  }

  /** The LaTeX command of the operator kind. */
  function LatexCodeOp(op: Operator): (code: string)
    ensures code == "\\sum" <==> op.Sum?
    ensures code == "\\prod" <==> op.Product?
  {
    match op
    case Sum(_, _, _) => "\\sum"
    case Product(_, _, _) => "\\prod"
  }

  /** First field, whatever the kind. */
  function Variable(op: Operator): VarOrImm {
    match op
    case Sum(v, _, _) => v
    case Product(v, _, _) => v
  }

  /** Second field, whatever the kind. */
  function Begin(op: Operator): VarOrImm {
    match op
    case Sum(_, b, _) => b
    case Product(_, b, _) => b
  }

  /** Third field, whatever the kind. */
  function End(op: Operator): VarOrImm {
    match op
    case Sum(_, _, e) => e
    case Product(_, _, e) => e
  }

  /** The three projections take the fields apart: together with the kind
      they rebuild the operator. */
  lemma ProjectionsRebuild(op: Operator)
    ensures op == if op.Sum? then Sum(Variable(op), Begin(op), End(op))
                  else Product(Variable(op), Begin(op), End(op))
  {
  }

  /** `op _{var = begin} ^{end}`: the command, ` _{`, the variable, ` = `,
      the lower bound, `} ^{`, the upper bound and `}`, each in its place. */
  function LatexCode(op: Operator): (code: string)
    ensures var c, v, b, e := LatexCodeOp(op), GetVal(Variable(op)), GetVal(Begin(op)), GetVal(End(op));
      && |code| == |c| + |v| + |b| + |e| + 11
      && code[..|c| + 3] == c + " _{"
      && code[|c| + 3..|c| + 3 + |v|] == v
      && code[|c| + 3 + |v|..|c| + 6 + |v|] == " = "
      && code[|c| + 6 + |v|..|c| + 6 + |v| + |b|] == b
      && code[|c| + 6 + |v| + |b|..|c| + 10 + |v| + |b|] == "} ^{"
      && code[|c| + 10 + |v| + |b|..|code| - 1] == e
      && code[|code| - 1] == '}'
  {
    var c, v, b, e := LatexCodeOp(op), GetVal(Variable(op)), GetVal(Begin(op)), GetVal(End(op));
    Layout(c, v, b, e);
    c + (" _{" + v + " = " + b + "} ^{" + e + "}")
  }

  /** Where each part of `op _{var = begin} ^{end}` lands in the code. */
  lemma Layout(c: string, v: string, b: string, e: string)
    ensures var code := c + (" _{" + v + " = " + b + "} ^{" + e + "}");
      && |code| == |c| + |v| + |b| + |e| + 11
      && code[..|c| + 3] == c + " _{"
      && code[|c| + 3..|c| + 3 + |v|] == v
      && code[|c| + 3 + |v|..|c| + 6 + |v|] == " = "
      && code[|c| + 6 + |v|..|c| + 6 + |v| + |b|] == b
      && code[|c| + 6 + |v| + |b|..|c| + 10 + |v| + |b|] == "} ^{"
      && code[|c| + 10 + |v| + |b|..|code| - 1] == e
      && code[|code| - 1] == '}'
  {
    var code := c + (" _{" + v + " = " + b + "} ^{" + e + "}");
    assert code == (c + " _{") + (v + " = " + b + "} ^{" + e + "}");
    VariableSlot(c, v, b, e);
    EqualsSlot(c, v, b, e);
    BeginSlot(c, v, b, e);
    SuperscriptSlot(c, v, b, e);
    EndSlot(c, v, b, e);
  }

  /** The variable follows the command and ` _{`. */
  lemma VariableSlot(c: string, v: string, b: string, e: string)
    ensures var code := c + (" _{" + v + " = " + b + "} ^{" + e + "}");
      && code[|c| + 3..|c| + 3 + |v|] == v
  {
    var code := c + (" _{" + v + " = " + b + "} ^{" + e + "}");
    assert code == (c + " _{") + (v) + (" = " + b + "} ^{" + e + "}");
    Strings.Segment(c + " _{", v, " = " + b + "} ^{" + e + "}");
  }

  /** ` = ` follows the variable. */
  lemma EqualsSlot(c: string, v: string, b: string, e: string)
    ensures var code := c + (" _{" + v + " = " + b + "} ^{" + e + "}");
      && code[|c| + 3 + |v|..|c| + 6 + |v|] == " = "
  {
    var code := c + (" _{" + v + " = " + b + "} ^{" + e + "}");
    assert code == (c + " _{" + v) + (" = ") + (b + "} ^{" + e + "}");
    Strings.Segment(c + " _{" + v, " = ", b + "} ^{" + e + "}");
  }

  /** The lower bound follows ` = `. */
  lemma BeginSlot(c: string, v: string, b: string, e: string)
    ensures var code := c + (" _{" + v + " = " + b + "} ^{" + e + "}");
      && code[|c| + 6 + |v|..|c| + 6 + |v| + |b|] == b
  {
    var code := c + (" _{" + v + " = " + b + "} ^{" + e + "}");
    assert code == (c + " _{" + v + " = ") + (b) + ("} ^{" + e + "}");
    Strings.Segment(c + " _{" + v + " = ", b, "} ^{" + e + "}");
  }

  /** `} ^{` follows the lower bound. */
  lemma SuperscriptSlot(c: string, v: string, b: string, e: string)
    ensures var code := c + (" _{" + v + " = " + b + "} ^{" + e + "}");
      && code[|c| + 6 + |v| + |b|..|c| + 10 + |v| + |b|] == "} ^{"
  {
    var code := c + (" _{" + v + " = " + b + "} ^{" + e + "}");
    assert code == (c + " _{" + v + " = " + b) + ("} ^{") + (e + "}");
    Strings.Segment(c + " _{" + v + " = " + b, "} ^{", e + "}");
  }

  /** The upper bound follows `} ^{` and precedes the last `}`. */
  lemma EndSlot(c: string, v: string, b: string, e: string)
    ensures var code := c + (" _{" + v + " = " + b + "} ^{" + e + "}");
      && code[|c| + 10 + |v| + |b|..|code| - 1] == e
  {
    var code := c + (" _{" + v + " = " + b + "} ^{" + e + "}");
    assert code == (c + " _{" + v + " = " + b + "} ^{") + (e) + ("}");
    Strings.Segment(c + " _{" + v + " = " + b + "} ^{", e, "}");
  }

  /** The write of an operator emits exactly its `LatexCode`. */
  method Write(op: Operator, buf: string) returns (out: string)
    ensures out == buf + LatexCode(op)
  {
    out := buf + LatexCode(op);
  }

  /** A sum and a product over the same fields print alike after the command. */
  lemma KindOnlyChangesCommand(v: VarOrImm, b: VarOrImm, e: VarOrImm)
    ensures LatexCode(Sum(v, b, e))[4..] == LatexCode(Product(v, b, e))[5..]
  {
    var tail := " _{" + GetVal(v) + " = " + GetVal(b) + "} ^{" + GetVal(e) + "}";
    var sum, prod := LatexCode(Sum(v, b, e)), LatexCode(Product(v, b, e));
    assert sum == "\\sum" + tail;
    assert prod == "\\prod" + tail;
    assert sum[4..] == tail;
    assert prod[5..] == tail;
  }

  /** The bounds of the operator tests print as `i`, `0` and `n`. */
  lemma ScenarioBounds()
    ensures GetVal(NewVar("i")) == "i" && GetVal(NewImm(0)) == "0" && GetVal(NewVar("n")) == "n"
  {
    assert NatToDecimal(0) == "0";
  }

  /** The operator tests: `Sum("i", 0, "n")` and `Product("i", 0, "n")`. */
  lemma SumAndProductScenario()
    ensures LatexCode(Sum(NewVar("i"), NewImm(0), NewVar("n"))) == "\\sum" + " _{i = 0} ^{n}"
    ensures LatexCode(Product(NewVar("i"), NewImm(0), NewVar("n"))) == "\\prod" + " _{i = 0} ^{n}"
  {
    ScenarioBounds();
    var tail := " _{" + "i" + " = " + "0" + "} ^{" + "n" + "}";
    assert tail == " _{i = 0} ^{n}";
    assert LatexCode(Sum(NewVar("i"), NewImm(0), NewVar("n"))) == "\\sum" + tail;
    assert LatexCode(Product(NewVar("i"), NewImm(0), NewVar("n"))) == "\\prod" + tail;
  }
}
