/** The relational symbols an equation may contain (src/symbols.rs): their
    token spellings, the canonical spelling of each, and their LaTeX codes. */
module Symbols {

  datatype Symbol = Equals | LessOrEquals | Less | MoreOrEquals | More | Diff

  /** The eight token spellings that denote a symbol. */
  predicate IsOp(s: string) {
    s == "==" || s == "=" || s == "<" || s == "<=" || s == ">" || s == ">=" || s == "!=" || s == "<>"
  }

  /** The spelling a symbol token is printed back as: the aliases "==" and
      "<>" stand for "=" and "!=", every other token for itself. */
  function Canonical(s: string): (c: string)
    requires IsOp(s)
    ensures IsOp(c) && c != "==" && c != "<>"
  {
    if s == "==" then "=" else if s == "<>" then "!=" else s
  }

  /** Token to symbol; any token outside `IsOp` is a panic in the source. */
  function GetSymbol(s: string): (x: Symbol)
    requires IsOp(s)
    ensures GetString(x) == Canonical(s)
  {
    match s
    case "=" => Equals
    case "==" => Equals
    case "<=" => LessOrEquals
    case "<" => Less
    case ">=" => MoreOrEquals
    case ">" => More
    case "!=" => Diff
    case "<>" => Diff
  }

  /** Symbol to its canonical token. */
  function GetString(x: Symbol): (s: string)
    ensures IsOp(s) && s != "==" && s != "<>"
  {
    match x
    case Equals => "="
    case LessOrEquals => "<="
    case Less => "<"
    case MoreOrEquals => ">="
    case More => ">"
    case Diff => "!="
  }

  /** The LaTeX text of a symbol, padded with one space on each side. */
  function LatexCode(x: Symbol): (code: string)
    ensures |code| >= 3 && code[0] == ' ' && code[|code| - 1] == ' '
    ensures x == Equals <==> code == " = "
    ensures x == LessOrEquals <==> code == " \\leq "
    ensures x == Less <==> code == " < "
    ensures x == MoreOrEquals <==> code == " \\geq "
    ensures x == More <==> code == " > "
    ensures x == Diff <==> code == " \\neq "
  {
    match x
    case Equals => " = "
    case LessOrEquals => " \\leq "
    case Less => " < "
    case MoreOrEquals => " \\geq "
    case More => " > "
    case Diff => " \\neq "
  }

  /** `GetString` is a left inverse of `GetSymbol`. */
  lemma GetStringLeftInverse(x: Symbol)
    ensures IsOp(GetString(x)) && GetSymbol(GetString(x)) == x
  {
  }

  /** Printing a parsed token gives the token back exactly when it is not one
      of the two aliases. */
  lemma GetSymbolRoundTrip(s: string)
    requires IsOp(s)
    ensures GetString(GetSymbol(s)) == s <==> s != "==" && s != "<>"
  {
  }

  /** The token table of the source's tests: each spelling and its symbol. */
  lemma SymbolTable()
    ensures GetSymbol("=") == Equals && GetSymbol("==") == Equals
    ensures GetSymbol("<=") == LessOrEquals && GetSymbol("<") == Less
    ensures GetSymbol(">=") == MoreOrEquals && GetSymbol(">") == More
    ensures GetSymbol("!=") == Diff && GetSymbol("<>") == Diff
  {
  }

  /** The tokens `GetSymbol` accepts are the printed forms of the six
      symbols and the two aliases, and nothing else. */
  lemma IsOpExactlyEight(s: string)
    ensures IsOp(s) <==> (exists x :: GetString(x) == s) || s == "==" || s == "<>"
  {
    if IsOp(s) && s != "==" && s != "<>" {
      var x := GetSymbol(s);
      assert GetString(x) == s;
    }
  }

  /** Distinct symbols have distinct LaTeX codes. */
  lemma LatexCodeInjective(x: Symbol, y: Symbol)
    ensures LatexCode(x) == LatexCode(y) ==> x == y
  {
  }
}
