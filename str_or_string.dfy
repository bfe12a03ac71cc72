/** Turning a `&str` or a `String` into an owned `String` (src/str_or_string.rs). */
module StrOrString {

  /** The `&str` conversion: an owned copy of the same characters. */
  function Convert(s: string): (r: string)
    ensures |r| == |s| && forall i | 0 <= i < |s| :: r[i] == s[i]
  {
    s
  }

  /** The `String` conversion: a new string built by pushing each character
      in turn, which ends equal to its input. */
  method ConvertString(s: string) returns (result: string)
    ensures result == s
  {
    result := [];
    var i := 0;
    while i < |s|
      invariant 0 <= i <= |s|
      invariant result == s[..i]
    {
      result := result + [s[i]];
      i := i + 1;
    }
  }
}
