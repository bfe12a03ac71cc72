/** Equations (src/equations.rs): raw tokens are classified into text and
    symbols, and an equation renders between `\begin{equation}` and
    `\end{equation}`. The file keeps its own copy of the symbol table; the
    copy is modelled as written and proved equal to `Symbols`. */
module Equations {
  import Symbols
  import Operators
  import opened Strings

  predicate IsOp(s: string) {
    s == "==" || s == "=" || s == "<" || s == "<=" || s == ">" || s == ">=" || s == "!=" || s == "<>"
  }

  function GetSymbol(s: string): (x: Symbols.Symbol)
    requires IsOp(s)
    ensures GetString(x) == s || (s == "==" && x == Symbols.Equals) || (s == "<>" && x == Symbols.Diff)
  {
    match s
    case "=" => Symbols.Equals
    case "==" => Symbols.Equals
    case "<=" => Symbols.LessOrEquals
    case "<" => Symbols.Less
    case ">=" => Symbols.MoreOrEquals
    case ">" => Symbols.More
    case "!=" => Symbols.Diff
    case "<>" => Symbols.Diff
  }

  function GetString(x: Symbols.Symbol): string {
    match x
    case Equals => "="
    case LessOrEquals => "<="
    case Less => "<"
    case MoreOrEquals => ">="
    case More => ">"
    case Diff => "!="
  }

  function LatexCode(x: Symbols.Symbol): string {
    match x
    case Equals => " = "
    case LessOrEquals => " \\leq "
    case Less => " < "
    case MoreOrEquals => " \\geq "
    case More => " > "
    case Diff => " \\neq "
  }

  /** The copy of the table agrees with the one in `Symbols` on every entry. */
  lemma TableAgreesWithSymbols(s: string, x: Symbols.Symbol)
    ensures IsOp(s) <==> Symbols.IsOp(s)
    ensures IsOp(s) ==> GetSymbol(s) == Symbols.GetSymbol(s)
    ensures GetString(x) == Symbols.GetString(x)
    ensures LatexCode(x) == Symbols.LatexCode(x)
  {
  }

  /** One element of an equation. `Operator` is the variant that
      src/operators.rs pushes onto equations. */
  datatype EquationElement =
    | Text(text: string)
    | Symb(symbol: Symbols.Symbol)
    | Operator(op: Operators.Operator)

  type Equation = seq<EquationElement>

  /** Classifies a token; total, because the symbol lookup is guarded by `IsOp`. */
  function GetEnum(s: string): (e: EquationElement)
    ensures e.Text? <==> !IsOp(s)
    ensures e.Text? ==> e.text == s
    ensures e.Symb? ==> Symbols.GetString(e.symbol) == Symbols.Canonical(s)
    ensures !e.Operator?
  {
    if IsOp(s) then Symb(GetSymbol(s)) else Text(s)
  }

  /** Classifies every token, keeping length and order. */
  function NewEquation(tokens: seq<string>): (eq: Equation)
    ensures |eq| == |tokens|
    ensures forall i | 0 <= i < |tokens| :: eq[i] == GetEnum(tokens[i])
  {
    if tokens == [] then [] else [GetEnum(tokens[0])] + NewEquation(tokens[1..])
  }

  /** The text one element writes. */
  function RenderElement(e: EquationElement): string {
    match e
    case Text(s) => s
    case Symb(x) => LatexCode(x)
    case Operator(op) => Operators.LatexCode(op)
  }

  /** The element texts one after the other, with nothing between them. */
  function RenderElements(eq: Equation): string {
    if eq == [] then "" else RenderElement(eq[0]) + RenderElements(eq[1..])
  }

  function RenderEquation(eq: Equation): string {
    "\\begin{equation}\n" + RenderElements(eq) + "\n\\end{equation}\n"
  }

  /** Sum of the lengths of the element texts. */
  function ElementsLength(eq: Equation): nat {
    if eq == [] then 0 else |RenderElement(eq[0])| + ElementsLength(eq[1..])
  }

  method WriteElement(e: EquationElement, buf: string) returns (out: string)
    ensures out == buf + RenderElement(e)
  {
    var st := match e
      case Text(s) => s
      case Symb(x) => LatexCode(x)
      case Operator(op) => Operators.LatexCode(op);
    out := buf + st;
  }

  lemma {:induction false} RenderElementsSnoc(eq: Equation, e: EquationElement)
    ensures RenderElements(eq + [e]) == RenderElements(eq) + RenderElement(e)
  {
    if eq == [] {
      assert eq + [e] == [e];
    } else {
      assert (eq + [e])[1..] == eq[1..] + [e];
      RenderElementsSnoc(eq[1..], e);
    }
  }

  /** Writes the opening delimiter, each element in order, then the closing one. */
  method WriteEquation(eq: Equation, buf: string) returns (out: string)
    ensures out == buf + RenderEquation(eq)
  {
    var open := buf + "\\begin{equation}\n";
    out := open;
    var i := 0;
    while i < |eq|
      invariant 0 <= i <= |eq|
      invariant out == open + RenderElements(eq[..i])
    {
      out := WriteElement(eq[i], out);
      assert eq[..i + 1] == eq[..i] + [eq[i]];
      RenderElementsSnoc(eq[..i], eq[i]);
      ConcatAssoc(open, RenderElements(eq[..i]), RenderElement(eq[i]));
      i := i + 1;
    }
    assert eq[..i] == eq;
    out := out + "\n\\end{equation}\n";
    ConcatAssoc(buf, "\\begin{equation}\n", RenderElements(eq));
    ConcatAssoc(buf, "\\begin{equation}\n" + RenderElements(eq), "\n\\end{equation}\n");
  }

  /** A text token writes itself verbatim; a symbol token writes its code,
      which carries its own surrounding spaces. */
  lemma TokenRender(s: string)
    ensures !IsOp(s) ==> RenderElement(GetEnum(s)) == s
    ensures IsOp(s) ==> RenderElement(GetEnum(s)) == Symbols.LatexCode(Symbols.GetSymbol(s))
  {
  }

  lemma {:induction false} RenderElementsLength(eq: Equation)
    ensures |RenderElements(eq)| == ElementsLength(eq)
  {
    if eq != [] {
      RenderElementsLength(eq[1..]);
    }
  }

  /** The delimiters add 33 characters to the element texts. */
  lemma RenderEquationLength(eq: Equation)
    ensures |RenderEquation(eq)| == 33 + ElementsLength(eq)
  {
    RenderElementsLength(eq);
  }

  /** The tests: three tokens give three elements, and `a = b` renders with
      the elements back to back. */
  lemma EquationScenario()
    ensures |NewEquation(["a", "!=", "b"])| == 3
    ensures RenderEquation(NewEquation(["a", "=", "b"])) == "\\begin{equation}\n" + "a = b" + "\n\\end{equation}\n"
  {
    var eq := NewEquation(["a", "=", "b"]);
    assert eq == [Text("a"), Symb(Symbols.Equals), Text("b")];
    assert [Text("a"), Symb(Symbols.Equals)] + [Text("b")] == eq;
    RenderThreeElements(Text("a"), Symb(Symbols.Equals), Text("b"));
    assert RenderElements(eq) == "a = b";
  }

  /** The operator test: `x =` followed by a sum, whose code
      `Operators.SumAndProductScenario` spells out. */
  lemma SumInEquationScenario()
    ensures var sum := Operators.Sum(Operators.NewVar("i"), Operators.NewImm(0), Operators.NewVar("n"));
      RenderEquation(NewEquation(["x", "="]) + [Operator(sum)])
      == "\\begin{equation}\n" + "x = " + Operators.LatexCode(sum) + "\n\\end{equation}\n"
  {
    OperatorAfterEquals(Operators.Sum(Operators.NewVar("i"), Operators.NewImm(0), Operators.NewVar("n")));
  }

  /** Any operator placed after the tokens `x =` is written after them. */
  lemma OperatorAfterEquals(op: Operators.Operator)
    ensures RenderEquation(NewEquation(["x", "="]) + [Operator(op)])
      == "\\begin{equation}\n" + "x = " + Operators.LatexCode(op) + "\n\\end{equation}\n"
  {
    XEqualsTokens();
    RenderThreeElements(Text("x"), Symb(Symbols.Equals), Operator(op));
    assert RenderElement(Symb(Symbols.Equals)) == " = ";
  }

  /** The tokens `x =` become a text and the equality symbol. */
  lemma XEqualsTokens()
    ensures NewEquation(["x", "="]) == [Text("x"), Symb(Symbols.Equals)]
  {
    var tokens := ["x", "="];
    assert tokens[1..] == ["="] && tokens[1..][1..] == [];
    assert GetEnum("x") == Text("x") && GetEnum("=") == Symb(Symbols.Equals);
  }

  lemma RenderThreeElements(a: EquationElement, b: EquationElement, c: EquationElement)
    ensures RenderElements([a, b] + [c]) == RenderElement(a) + RenderElement(b) + RenderElement(c)
  {
    var eq := [a, b] + [c];
    assert eq == [a, b, c];
    assert eq[1..] == [b, c] && eq[1..][1..] == [c] && eq[1..][1..][1..] == [];
    var ra, rb, rc := RenderElement(a), RenderElement(b), RenderElement(c);
    assert RenderElements(eq[1..][1..]) == rc + "" == rc;
    assert RenderElements(eq) == ra + (rb + rc);
    assert ra + (rb + rc) == ra + rb + rc;
  }
}
