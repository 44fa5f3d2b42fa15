/**
 * The pieces of Ruby text the code generator splices together: decimal
 * integers (`Integer#to_s`), `Array#join`, runs of blanks, `String#inspect`
 * on names, and the value a `transpile` call returns (a String, or nil).
 */
module RubyText {
  import opened Lexer

  /** What `transpile` returns: a String, or nil (an unhandled leaf type). */
  datatype Value = StrValue(s: string) | NilValue

  /** `"#{v}"`: nil interpolates as the empty String. */
  function Interp(v: Value): string {
    match v
    case StrValue(s) => s
    case NilValue => ""
  }

  /** The interpolations of a list of values, in order. */
  function Texts(vs: seq<Value>): (r: seq<string>)
    ensures |r| == |vs|
    ensures forall i :: 0 <= i < |vs| ==> r[i] == Interp(vs[i])
  {
    seq(|vs|, i requires 0 <= i < |vs| => Interp(vs[i]))
  }

  // ---------------------------------------------------------------------
  // Decimal integers

  function DigitChar(d: nat): (c: char)
    requires d < 10
    ensures IsDigit(c)
  {
    "0123456789"[d]
  }

  function DigitValue(c: char): nat
    requires IsDigit(c)
  {
    c as int - '0' as int
  }

  lemma DigitRoundTrip(d: nat)
    requires d < 10
    ensures DigitValue(DigitChar(d)) == d
  {
  }

  predicate AllDigits(s: string) {
    forall i :: 0 <= i < |s| ==> IsDigit(s[i])
  }

  /** The value of a run of decimal digits, most significant first. */
  function DigitsValue(s: string): nat
    requires AllDigits(s)
  {
    if s == [] then 0 else DigitsValue(s[..|s| - 1]) * 10 + DigitValue(s[|s| - 1])
  }

  /** `n.to_s` for a non-negative Integer. */
  function IntToString(n: nat): (r: string)
    ensures AllDigits(r) && r != []
    decreases n
  {
    if n < 10 then [DigitChar(n)] else IntToString(n / 10) + [DigitChar(n % 10)]
  }

  /** `to_s` writes the number's own digits: read back, they give the number, with no leading zero. */
  lemma {:induction false} IntToStringRoundTrip(n: nat)
    ensures DigitsValue(IntToString(n)) == n
    ensures |IntToString(n)| > 1 ==> IntToString(n)[0] != '0'
    decreases n
  {
    var r := IntToString(n);
    if n < 10 {
      DigitRoundTrip(n);
    } else {
      IntToStringRoundTrip(n / 10);
      DigitRoundTrip(n % 10);
      assert r[..|r| - 1] == IntToString(n / 10);
      if |IntToString(n / 10)| == 1 {
        assert n / 10 != 0;
      }
    }
  }

  /** `to_s` writes different numbers differently. */
  lemma IntToStringInjective(m: nat, n: nat)
    requires IntToString(m) == IntToString(n)
    ensures m == n
  {
    IntToStringRoundTrip(m);
    IntToStringRoundTrip(n);
  }

  // ---------------------------------------------------------------------
  // Joining and indenting

  /** `parts.join(sep)`. */
  function Join(parts: seq<string>, sep: string): string {
    if |parts| == 0 then ""
    else if |parts| == 1 then parts[0]
    else parts[0] + sep + Join(parts[1..], sep)
  }

  /** The parts one after another. */
  function Concat(parts: seq<string>): string {
    if parts == [] then "" else parts[0] + Concat(parts[1..])
  }

  /** `" " * n`. */
  function Spaces(n: nat): (r: string)
    ensures |r| == n && forall i :: 0 <= i < n ==> r[i] == ' '
  {
    seq(n, _ => ' ')
  }

  /** `"true"` or `"false"`. */
  function BoolText(b: bool): string {
    if b then "true" else "false"
  }

  // ---------------------------------------------------------------------
  // String#inspect

  /** How `inspect` writes one character between the quotes. */
  function EscapeChar(c: char): string {
    if c == '"' then "\\\""
    else if c == '\\' then "\\\\"
    else if c == '\n' then "\\n"
    else if c == '\t' then "\\t"
    else [c]
  }

  function Escape(s: string): string {
    if s == [] then "" else EscapeChar(s[0]) + Escape(s[1..])
  }

  /** `s.inspect`: the text between double quotes with quote, backslash, line feed and tab escaped. */
  function Inspect(s: string): (r: string)
    ensures |r| >= 2 && r[0] == '"' && r[|r| - 1] == '"'
  {
    "\"" + Escape(s) + "\""
  }

  /** Text made of word characters has nothing to escape. */
  lemma {:induction false} EscapeWordChars(s: string)
    requires forall k :: 0 <= k < |s| ==> IsWordChar(s[k])
    ensures Escape(s) == s
  {
    if s != [] {
      assert forall k :: 0 <= k < |s[1..]| ==> IsWordChar(s[1..][k]) by {
        forall k | 0 <= k < |s[1..]| ensures IsWordChar(s[1..][k]) {
          assert s[1..][k] == s[k + 1];
        }
      }
      EscapeWordChars(s[1..]);
      assert IsWordChar(s[0]);
    }
  }

  /** A name the lexer reads as a word is only quoted by `inspect`. */
  lemma InspectWord(s: string)
    requires AllWordChars(s)
    ensures Inspect(s) == "\"" + s + "\""
  {
    EscapeWordChars(s);
  }

  /** Reads `Escape`'s output back: a backslash takes the next character as an escape. */
  function Unescaped(s: string): string {
    if s == [] then ""
    else if s[0] == '\\' && |s| >= 2 then
      (if s[1] == 'n' then "\n" else if s[1] == 't' then "\t" else [s[1]]) + Unescaped(s[2..])
    else [s[0]] + Unescaped(s[1..])
  }

  /** `inspect` loses nothing: the quoted text reads back as the name, so distinct names stay distinct. */
  lemma {:induction false} EscapeReadsBack(s: string)
    ensures Unescaped(Escape(s)) == s
  {
    if s != [] {
      EscapeReadsBack(s[1..]);
      var c, rest := s[0], Escape(s[1..]);
      var e := EscapeChar(c);
      var t := e + rest;
      assert Escape(s) == t;
      if c == '"' || c == '\\' || c == '\n' || c == '\t' {
        assert |e| == 2 && t[0] == '\\' && t[1] == e[1] && t[2..] == rest;
        assert Unescaped(t) == [c] + Unescaped(rest);
      } else {
        assert e == [c] && t[0] == c && t[1..] == rest;
        assert Unescaped(t) == [c] + Unescaped(rest);
      }
      assert s == [c] + s[1..];
    }
  }

  lemma InspectInjective(a: string, b: string)
    requires Inspect(a) == Inspect(b)
    ensures a == b
  {
    assert Escape(a) == Inspect(a)[1..|Inspect(a)| - 1];
    assert Escape(b) == Inspect(b)[1..|Inspect(b)| - 1];
    EscapeReadsBack(a);
    EscapeReadsBack(b);
  }
}
