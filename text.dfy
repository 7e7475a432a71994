/** String helpers shared by the page scripts and the server. */
module Text {
  import opened Wrappers

  /** The characters String.prototype.trim removes: ECMAScript's WhiteSpace
      (tab, vertical tab, form feed, space, no-break space, the byte order mark
      and every other Unicode space separator) and its LineTerminators. */
  predicate IsJsWhitespace(c: char) {
    var n := c as int;
    n == 0x09 || n == 0x0A || n == 0x0B || n == 0x0C || n == 0x0D || n == 0x20 ||
    n == 0xA0 || n == 0x1680 || (0x2000 <= n <= 0x200A) || n == 0x2028 ||
    n == 0x2029 || n == 0x202F || n == 0x205F || n == 0x3000 || n == 0xFEFF
  }

  predicate AllWhitespace(s: string) {
    forall i :: 0 <= i < |s| ==> IsJsWhitespace(s[i])
  }

  /** Length of the whitespace run at the front of `s`. */
  function LeadingWhitespace(s: string): (k: nat)
    ensures k <= |s|
    ensures forall i :: 0 <= i < k ==> IsJsWhitespace(s[i])
    ensures k < |s| ==> !IsJsWhitespace(s[k])
  {
    if s == [] || !IsJsWhitespace(s[0]) then 0
    else 1 + LeadingWhitespace(s[1..])
  }

  /** Where the whitespace run at the end of `s` starts. */
  function TrailingWhitespace(s: string): (k: nat)
    ensures k <= |s|
    ensures forall i :: k <= i < |s| ==> IsJsWhitespace(s[i])
    ensures k > 0 ==> !IsJsWhitespace(s[k - 1])
  {
    if s == [] || !IsJsWhitespace(s[|s| - 1]) then |s|
    else TrailingWhitespace(s[..|s| - 1])
  }

  /** String.prototype.trim: the text between the leading and the trailing
      whitespace runs. */
  function Trim(s: string): (r: string)
    ensures r == [] <==> AllWhitespace(s)
    ensures r != [] ==> !IsJsWhitespace(r[0]) && !IsJsWhitespace(r[|r| - 1])
    ensures exists a :: 0 <= a <= |s| - |r| && s[a..a + |r|] == r &&
                         AllWhitespace(s[..a]) && AllWhitespace(s[a + |r|..])
  {
    var a := LeadingWhitespace(s);
    if a == |s| then
      assert s[..a] == s && s[a..a] == [];
      []
    else
      var b := TrailingWhitespace(s);
      assert !IsJsWhitespace(s[a]);
      s[a..b]
  }

  /** Lower-cases the ASCII letters A to Z and leaves every other character alone. */
  function AsciiLower(s: string): string {
    seq(|s|, i requires 0 <= i < |s| => if 'A' <= s[i] <= 'Z' then (s[i] as int + 32) as char else s[i])
  }

  /** Position of the last occurrence of `c` in `s`. */
  function LastIndexOf(s: string, c: char): (r: Option<nat>)
    ensures r.Some? ==> r.value < |s| && s[r.value] == c &&
                        forall j :: r.value < j < |s| ==> s[j] != c
    ensures r.None? <==> c !in s
  {
    if s == [] then None
    else if s[|s| - 1] == c then Some(|s| - 1)
    else
      var r := LastIndexOf(s[..|s| - 1], c);
      assert s == s[..|s| - 1] + [s[|s| - 1]];
      r
  }

  /** Decimal rendering of a non-negative integer, as JavaScript's String(n). */
  function NatToDecimal(n: nat): (r: string)
    ensures |r| >= 1
    ensures forall i :: 0 <= i < |r| ==> '0' <= r[i] <= '9'
    ensures r[0] == '0' <==> n == 0
    ensures r[0] == '0' ==> r == "0"
  {
    var d := ['0' + (n % 10) as char];
    if n < 10 then d else NatToDecimal(n / 10) + d
  }

  predicate AllDigits(s: string) {
    forall i :: 0 <= i < |s| ==> '0' <= s[i] <= '9'
  }

  /** The number a string of decimal digits denotes (the database's reading
      of a numeric id sent as text). */
  function DecimalValue(s: string): nat
    requires AllDigits(s)
  {
    if s == [] then 0 else DecimalValue(s[..|s| - 1]) * 10 + (s[|s| - 1] as int - '0' as int)
  }

  /** Reading back the decimal rendering gives the number. */
  lemma {:induction false} DecimalRoundTrip(n: nat)
    ensures DecimalValue(NatToDecimal(n)) == n
  {
    var r := NatToDecimal(n);
    assert r[..|r| - 1] == (if n < 10 then [] else NatToDecimal(n / 10));
    if n >= 10 {
      DecimalRoundTrip(n / 10);
    }
  }

  /** Distinct numbers have distinct renderings. */
  lemma DecimalInjective(a: nat, b: nat)
    ensures NatToDecimal(a) == NatToDecimal(b) <==> a == b
  {
    if NatToDecimal(a) == NatToDecimal(b) {
      DecimalRoundTrip(a);
      DecimalRoundTrip(b);
    }
  }
}
