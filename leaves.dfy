/**
 * `compile_leaf` of `Tidy2Ruby` for the leaf kinds that render as text:
 * names (with `fix_varname`), numbers with their suffixes and exact
 * rationals, characters, strings and pattern strings.
 */
module Leaves {
  import opened Wrappers
  import opened Faults
  import opened Tokens
  import opened Lexer
  import opened Arith
  import opened RubyText

  // ---------------------------------------------------------------------
  // Names

  /** `RESERVED`: Tidy names that are Ruby keywords. */
  const Reserved: seq<string> := ["case", "when", "break", "unless", "end", "until"]

  predicate StartsWithUnderscore(name: string) {
    |name| > 0 && name[0] == '_'
  }

  /**
   * `fix_varname`: a reserved name, or one that starts with `_`, gets a
   * leading `_`; any other name is kept. The result is never reserved.
   */
  function FixVarname(name: string): (r: string)
    ensures r == name || r == "_" + name
    ensures r == name <==> name !in Reserved && !StartsWithUnderscore(name)
    ensures r !in Reserved
  {
    if name in Reserved || StartsWithUnderscore(name) then
      var r := "_" + name;
      assert r[0] == '_' && forall w <- Reserved :: w[0] != '_';
      r
    else name
  }

  /** Distinct Tidy names stay distinct Ruby names. */
  lemma FixVarnameInjective(a: string, b: string)
    requires FixVarname(a) == FixVarname(b)
    ensures a == b
  {
    var fa, fb := FixVarname(a), FixVarname(b);
    if fa == "_" + a && fb == b {
      assert StartsWithUnderscore(b);
    } else if fa == a && fb == "_" + b {
      assert StartsWithUnderscore(a);
    } else if fa == "_" + a && fb == "_" + b {
      assert a == fa[1..] && b == fb[1..];
    }
  }

  /** A word leaf: `get_var(<inspected mangled name>)`. */
  function WordLeaf(raw: string): string {
    "get_var(" + Inspect(FixVarname(raw)) + ")"
  }

  /** For a name the lexer reads as a word, the mangled name appears between plain double quotes. */
  lemma WordLeafQuotesName(raw: string)
    requires AllWordChars(raw)
    ensures WordLeaf(raw) == "get_var(\"" + FixVarname(raw) + "\")"
  {
    var f := FixVarname(raw);
    if f != raw {
      assert f == "_" + raw;
      assert AllWordChars(f) by {
        forall k | 0 <= k < |f| ensures IsWordChar(f[k]) {
          if k > 0 { assert f[k] == raw[k - 1]; }
        }
      }
    }
    InspectWord(f);
  }

  // ---------------------------------------------------------------------
  // Numbers

  /** The length of the run of digits that starts `s`. */
  function LeadingDigits(s: string): (n: nat)
    ensures n <= |s| && AllDigits(s[..n])
    ensures n < |s| ==> !IsDigit(s[n])
  {
    if s == [] || !IsDigit(s[0]) then 0
    else
      var n := 1 + LeadingDigits(s[1..]);
      assert s[..n] == [s[0]] + s[1..][..n - 1];
      n
  }

  /**
   * How `String#to_r` reads a number token's text: an integer part, then a
   * fraction when a `.` is followed by a digit, then an exponent when an
   * `e` follows that part and a digit follows the `e`; it stops at the first
   * character that does not fit.
   */
  datatype Decimal = Decimal(whole: string, fraction: string, exponent: string)

  function ReadDecimal(s: string): (d: Decimal)
    ensures AllDigits(d.whole) && AllDigits(d.fraction) && AllDigits(d.exponent)
  {
    var w := LeadingDigits(s);
    var rest := s[w..];
    var hasFraction := |rest| >= 2 && rest[0] == '.' && IsDigit(rest[1]);
    var f := if hasFraction then LeadingDigits(rest[1..]) else 0;
    var rest' := if hasFraction then rest[1 + f..] else rest;
    var hasExponent := |rest'| >= 2 && rest'[0] == 'e' && IsDigit(rest'[1]);
    var x := if hasExponent then LeadingDigits(rest'[1..]) else 0;
    Decimal(s[..w], if hasFraction then rest[1..][..f] else "", if hasExponent then rest'[1..][..x] else "")
  }

  function Pow10(k: nat): (p: nat)
    ensures p >= 1
  {
    if k == 0 then 1 else 10 * Pow10(k - 1)
  }

  /** The decimal as an unreduced fraction: all its digits, scaled by the exponent, over a power of ten. */
  function Numerator(d: Decimal): nat
    requires AllDigits(d.whole) && AllDigits(d.fraction) && AllDigits(d.exponent)
  {
    DigitsValue(d.whole + d.fraction) * Pow10(DigitsValue(d.exponent))
  }

  function Denominator(d: Decimal): nat {
    Pow10(|d.fraction|)
  }

  /** Euclid's greatest common divisor. */
  function Gcd(a: nat, b: nat): nat
    decreases b
  {
    if b == 0 then a else Gcd(b, a % b)
  }

  lemma {:induction false} GcdPositive(a: nat, b: nat)
    requires b > 0
    ensures Gcd(a, b) > 0
    decreases b
  {
    if a % b > 0 {
      GcdPositive(b, a % b);
    }
  }

  /** A multiple of `g` plus a multiple of `g` is a multiple of `g`. */
  lemma Recombine(a: int, b: int, k: int, m: int, p: int, q: int, g: int)
    requires a == k * b + m && b == p * g && m == q * g
    ensures a == (k * p + q) * g
  {
    assert k * b == (k * p) * g;
    assert (k * p) * g + q * g == (k * p + q) * g;
  }

  /** `Gcd(a, b)` divides both `a` and `b`: the cofactors are returned. */
  lemma {:induction false} GcdDivides(a: nat, b: nat) returns (p: nat, q: nat)
    ensures a == p * Gcd(a, b) && b == q * Gcd(a, b)
    decreases b
  {
    if b == 0 {
      p, q := 1, 0;
    } else {
      var g := Gcd(a, b);
      assert g == Gcd(b, a % b);
      var p', q' := GcdDivides(b, a % b);
      var k := a / b;
      Recombine(a, b, k, a % b, p', q', g);
      p, q := k * p' + q', p';
    }
  }

  /** `Rational#numerator` and `#denominator`: the fraction divided by its greatest common divisor. */
  function Reduced(n: nat, d: nat): (r: (nat, nat))
    requires d > 0
  {
    GcdPositive(n, d);
    var g := Gcd(n, d);
    (n / g, d / g)
  }

  /** Reducing keeps the value of the fraction and a positive denominator. */
  lemma ReducedKeepsValue(n: nat, d: nat)
    requires d > 0
    ensures Reduced(n, d).1 > 0
    ensures Reduced(n, d).0 * d == Reduced(n, d).1 * n
  {
    GcdPositive(n, d);
    var g := Gcd(n, d);
    var p, q := GcdDivides(n, d);
    MulDiv(p, g);
    MulDiv(q, g);
    assert Reduced(n, d) == (p, q);
    assert p * (q * g) == q * (p * g);
  }

  /** `raw.to_r` for the text of a number token. */
  function ToR(raw: string): (r: (nat, nat))
    ensures r.1 > 0
  {
    var d := ReadDecimal(raw);
    ReducedKeepsValue(Numerator(d), Denominator(d));
    Reduced(Numerator(d), Denominator(d))
  }

  /** `to_r` gives the exact value of the decimal the text starts with. */
  lemma ToRIsExact(raw: string)
    ensures var d := ReadDecimal(raw);
      ToR(raw).0 * Denominator(d) == ToR(raw).1 * Numerator(d)
  {
    var d := ReadDecimal(raw);
    ReducedKeepsValue(Numerator(d), Denominator(d));
  }

  /** The characters a number token is made of: digits, separators `b` `e` `.`, terminators `r` `i` `f`. */
  predicate IsNumberText(s: string) {
    |s| > 0 && IsDigit(s[0]) && forall k :: 0 <= k < |s| ==> IsNumberBody(s[k]) || IsNumberTerminator(s[k])
  }

  /** The text before an optional final terminator, and that terminator. */
  function SplitTerminator(raw: string): (r: (string, Option<char>))
    ensures r.1.Some? ==> IsNumberTerminator(r.1.value) && raw == r.0 + [r.1.value]
    ensures r.1.None? ==> r.0 == raw && (raw == [] || !IsNumberTerminator(raw[|raw| - 1]))
  {
    if |raw| > 0 && IsNumberTerminator(raw[|raw| - 1]) then (raw[..|raw| - 1], Some(raw[|raw| - 1]))
    else (raw, None)
  }

  /**
   * A number leaf: one trailing terminator is split off; text with a `.` is
   * written as the exact rational `(Nr/D)`, other text as it stands; then
   * `f` appends `.to_f`, `i` multiplies by `1i`, and `r` appends `r` unless
   * the text was already a rational. Text that is not a number token's is
   * outside the model.
   */
  function NumberLeaf(raw: string): Result<string, Fault> {
    var (body, terminator) := SplitTerminator(raw);
    var rational := '.' in body;
    if rational && !IsNumberText(body) then Err(Unmodelled)
    else
      var res := if rational then "(" + IntToString(ToR(body).0) + "r/" + IntToString(ToR(body).1) + ")" else body;
      match terminator
      case None => Ok(res)
      case Some(t) =>
        if t == 'f' then Ok(res + ".to_f")
        else if t == 'r' then Ok(if rational then res else res + "r")
        else Ok("(" + res + "*1i)")
  }

  /** A decimal point gives the rational literal of the text's exact value, whatever the suffix. */
  lemma NumberLeafDecimal(raw: string)
    requires IsNumberText(SplitTerminator(raw).0) && '.' in SplitTerminator(raw).0
    ensures var body := SplitTerminator(raw).0;
      var (n, d) := ToR(body);
      var lit := "(" + IntToString(n) + "r/" + IntToString(d) + ")";
      && n * Denominator(ReadDecimal(body)) == d * Numerator(ReadDecimal(body))
      && NumberLeaf(raw) == Ok(match SplitTerminator(raw).1
           case None => lit
           case Some(t) => if t == 'f' then lit + ".to_f" else if t == 'r' then lit else "(" + lit + "*1i)")
  {
    ToRIsExact(SplitTerminator(raw).0);
  }

  /** Without a decimal point the text is kept, and only the one final terminator is rewritten. */
  lemma NumberLeafInteger(raw: string)
    requires '.' !in raw
    ensures var (body, terminator) := SplitTerminator(raw);
      NumberLeaf(raw) == Ok(match terminator
        case None => raw
        case Some(t) => if t == 'f' then body + ".to_f" else if t == 'r' then raw else "(" + body + "*1i)")
  {
    var (body, terminator) := SplitTerminator(raw);
    assert '.' !in body by {
      if terminator.Some? { assert body == raw[..|raw| - 1]; }
    }
  }

  /** `2.5` is five halves: the digits 25 over 10, reduced by 5. */
  lemma NumberLeafDecimalExample()
    ensures NumberLeaf("2.5") == Ok("(5r/2)")
  {
    var raw := "2.5";
    assert raw[|raw| - 1] == '5';
    assert SplitTerminator(raw) == ("2.5", None);
    assert IsNumberText(raw);
    assert LeadingDigits("5") == 1 by { assert LeadingDigits("") == 0; }
    assert LeadingDigits("2.5") == 1 by { assert "2.5"[1..] == ".5"; assert LeadingDigits(".5") == 0; }
    assert "2.5"[1..] == ".5";
    assert ".5"[1..] == "5";
    var d := ReadDecimal("2.5");
    assert d == Decimal("2", "5", "");
    assert DigitsValue("25") == 25 by {
      assert "25"[..1] == "2";
      assert "2"[..0] == "";
    }
    assert "2" + "5" == "25";
    assert Numerator(d) == 25 && Denominator(d) == 10;
    assert Gcd(25, 10) == 5 by {
      assert Gcd(10, 5) == Gcd(5, 0);
    }
    assert ToR("2.5") == (5, 2);
    assert IntToString(5) == "5" && IntToString(2) == "2";
    assert "(" + "5" + "r/" + "2" + ")" == "(5r/2)";
  }

  /** `3ri` keeps its `r` and is multiplied by `1i`; `4f` becomes a Float. */
  lemma NumberLeafSuffixExamples()
    ensures NumberLeaf("3ri") == Ok("(3r*1i)")
    ensures NumberLeaf("4f") == Ok("4.to_f")
  {
    assert NumberLeaf("3ri") == Ok("(3r*1i)") by {
      var raw := "3ri";
      assert raw[|raw| - 1] == 'i';
      assert raw[..|raw| - 1] == "3r";
      assert SplitTerminator(raw) == ("3r", Some('i'));
      assert '.' !in "3r";
      assert "(" + "3r" + "*1i)" == "(3r*1i)";
    }
    var raw := "4f";
    assert raw[|raw| - 1] == 'f';
    assert raw[..|raw| - 1] == "4";
    assert SplitTerminator(raw) == ("4", Some('f'));
    assert '.' !in "4";
    assert "4" + ".to_f" == "4.to_f";
  }

  // ---------------------------------------------------------------------
  // Characters

  /** A character leaf: `Character.new` of the code point of the character after the quote. */
  function CharacterLeaf(raw: string): (r: Result<string, Fault>)
    ensures r.Ok? <==> |raw| >= 2
  {
    if |raw| < 2 then Err(NoMethod) else Ok("Character.new(" + IntToString(raw[1] as int) + ")")
  }

  /** The argument of `Character.new` is the decimal code point of `raw[1]`. */
  lemma CharacterLeafCodePoint(raw: string)
    requires |raw| >= 2
    ensures var r := CharacterLeaf(raw).value;
      && |r| > 15 && r[..14] == "Character.new(" && r[|r| - 1] == ')'
      && AllDigits(r[14..|r| - 1]) && DigitsValue(r[14..|r| - 1]) == raw[1] as int
  {
    var r := CharacterLeaf(raw).value;
    var digits := IntToString(raw[1] as int);
    assert r[14..|r| - 1] == digits;
    IntToStringRoundTrip(raw[1] as int);
  }

  // ---------------------------------------------------------------------
  // Strings

  /** `gsub(/qq/, 'q')` for the quote `q`: left to right, each doubled quote becomes one. */
  function Collapse(s: string, q: char): (r: string)
    ensures |r| <= |s| && (r == [] <==> s == [])
  {
    if s == [] then ""
    else if |s| >= 2 && s[0] == q && s[1] == q then [q] + Collapse(s[2..], q)
    else [s[0]] + Collapse(s[1..], q)
  }

  /** How a literal stores its text: every quote doubled. */
  function Double(x: string, q: char): string {
    if x == [] then "" else (if x[0] == q then [q, q] else [x[0]]) + Double(x[1..], q)
  }

  /** A string literal of the text `x`: the text with its quotes doubled, between quotes. */
  function Quoted(x: string): string {
    "\"" + Double(x, '"') + "\""
  }

  /** Collapsing doubled quotes gives back the text that was doubled. */
  lemma {:induction false} CollapseUndoesDouble(x: string, q: char)
    ensures Collapse(Double(x, q), q) == x
  {
    if x != [] {
      CollapseUndoesDouble(x[1..], q);
      var head := if x[0] == q then [q, q] else [x[0]];
      var d := head + Double(x[1..], q);
      if x[0] == q {
        assert d[2..] == Double(x[1..], q);
      } else {
        assert d[1..] == Double(x[1..], q);
      }
    }
  }

  /** The `eval` of `\n`, `\t` and `\\`, left to right; every other character is kept. */
  function DecodeEscapes(s: string): string {
    if s == [] then ""
    else if |s| >= 2 && s[0] == '\\' && (s[1] == 'n' || s[1] == 't' || s[1] == '\\') then
      (if s[1] == 'n' then "\n" else if s[1] == 't' then "\t" else "\\") + DecodeEscapes(s[2..])
    else [s[0]] + DecodeEscapes(s[1..])
  }

  /** Decoding reverses `inspect`'s escapes on text without double quotes. */
  lemma {:induction false} DecodeEscapesUndoesEscape(x: string)
    requires '"' !in x
    ensures DecodeEscapes(Escape(x)) == x
  {
    if x != [] {
      assert '"' !in x[1..] by {
        assert forall k :: 0 <= k < |x[1..]| ==> x[1..][k] == x[k + 1];
      }
      DecodeEscapesUndoesEscape(x[1..]);
      var c, rest := x[0], Escape(x[1..]);
      var e := EscapeChar(c);
      var s := e + rest;
      assert Escape(x) == s;
      if c == '\\' || c == '\n' || c == '\t' {
        assert |e| == 2 && s[0] == '\\' && s[1] == e[1] && s[2..] == rest;
        assert DecodeEscapes(s) == [c] + DecodeEscapes(rest);
      } else {
        assert c != '"' && e == [c];
        assert s[0] == c && s[1..] == rest;
        assert DecodeEscapes(s) == [c] + DecodeEscapes(rest);
      }
      assert x == [c] + x[1..];
    }
  }

  /** `s[1..-2]`: nil for the empty String, else the text without its first and last characters. */
  function StripOne(s: string): Option<string> {
    if |s| == 0 then None else if |s| == 1 then Some("") else Some(s[1..|s| - 1])
  }

  /** `s[2..-2]`: nil below two characters, else the text without its first two and last characters. */
  function StripTwo(s: string): Option<string> {
    if |s| < 2 then None else if |s| <= 3 then Some("") else Some(s[2..|s| - 1])
  }

  /** A string leaf as written: collapse `""` over the whole literal, then strip the outer quotes. */
  function StringLeafAsWritten(raw: string): (r: Result<string, Fault>)
    ensures r.Ok? <==> raw != []
  {
    match StripOne(Collapse(raw, '"'))
    case None => Err(NoMethod)
    case Some(inner) => Ok("'" + DecodeEscapes(inner) + "'")
  }

  /** A string leaf that strips the outer quotes first, so that they cannot pair with a doubled quote. */
  function StringLeaf(raw: string): (r: Result<string, Fault>)
    ensures r.Ok? <==> raw != []
  {
    match StripOne(raw)
    case None => Err(NoMethod)
    case Some(inner) => Ok("'" + DecodeEscapes(Collapse(inner, '"')) + "'")
  }

  /** The string leaf of any literal decodes the literal's own text. */
  lemma StringLeafReadsLiteral(x: string)
    ensures StringLeaf(Quoted(x)) == Ok("'" + DecodeEscapes(x) + "'")
  {
    var raw := Quoted(x);
    assert StripOne(raw) == Some(Double(x, '"'));
    CollapseUndoesDouble(x, '"');
  }

  /** A literal of a lone quote loses it as written: the outer quotes pair with the doubled one. */
  lemma StringLeafLosesQuote()
    ensures Quoted("\"") == "\"\"\"\""
    ensures StringLeafAsWritten(Quoted("\"")) == Ok("''")
    ensures StringLeaf(Quoted("\"")) == Ok("'\"'")
  {
    assert Double("\"", '"') == "\"\"" by {
      assert Double("", '"') == "";
    }
    var raw := "\"\"\"\"";
    assert Quoted("\"") == raw;
    assert Collapse(raw, '"') == "\"\"" by {
      assert raw[2..] == "\"\"";
      assert "\"\""[2..] == "";
      assert Collapse("", '"') == "";
      assert Collapse("\"\"", '"') == "\"";
    }
    assert StripOne("\"\"") == Some("");
    assert DecodeEscapes("") == "";
    assert raw[1..|raw| - 1] == "\"\"";
    assert StripOne(raw) == Some("\"\"");
    assert Collapse("\"\"", '"') == "\"" by {
      assert "\"\""[2..] == "";
      assert Collapse("", '"') == "";
    }
    assert "'" + "" + "'" == "''";
    assert "'" + "\"" + "'" == "'\"'";
    assert DecodeEscapes("\"") == "\"" by {
      assert "\""[1..] == "";
      assert DecodeEscapes("") == "";
    }
  }

  /** A text made of double quotes only. */
  predicate AllQuotes(s: string) {
    forall i :: 0 <= i < |s| ==> s[i] == '"'
  }

  /** A doubled quote at the front collapses to one. */
  lemma CollapsePair(tail: string, q: char)
    ensures Collapse([q, q] + tail, q) == [q] + Collapse(tail, q)
  {
    assert ([q, q] + tail)[2..] == tail;
  }

  /** Any other character at the front is kept. */
  lemma CollapseKeep(c: char, tail: string, q: char)
    requires c != q || tail == [] || tail[0] != q
    ensures Collapse([c] + tail, q) == [c] + Collapse(tail, q)
  {
    assert ([c] + tail)[1..] == tail;
  }

  /** A literal's closing quote pairs with nothing: the doubled text before it collapses back. */
  lemma {:induction false} CollapseClosing(x: string, q: char)
    ensures Collapse(Double(x, q) + [q], q) == x + [q]
  {
    if x == [] {
      assert Double(x, q) + [q] == [q] + [];
      CollapseKeep(q, [], q);
    } else {
      CollapseClosing(x[1..], q);
      var tail := Double(x[1..], q) + [q];
      if x[0] == q {
        assert Double(x, q) + [q] == [q, q] + tail;
        CollapsePair(tail, q);
      } else {
        assert Double(x, q) + [q] == [x[0]] + tail;
        CollapseKeep(x[0], tail, q);
      }
      assert x == [x[0]] + x[1..];
    }
  }

  /** With a character other than the quote in the text, the opening quote pairs with nothing either. */
  lemma {:induction false} CollapseQuoted(x: string, q: char)
    requires exists i :: 0 <= i < |x| && x[i] != q
    ensures Collapse([q] + Double(x, q) + [q], q) == [q] + x + [q]
    decreases |x|
  {
    if x[0] == q {
      var i :| 0 <= i < |x| && x[i] != q;
      assert x[1..][i - 1] == x[i];
      CollapseQuoted(x[1..], q);
      var t := [q] + Double(x[1..], q) + [q];
      assert [q] + Double(x, q) + [q] == [q, q] + t;
      CollapsePair(t, q);
      assert x == [q] + x[1..];
    } else {
      CollapseClosing(x, q);
      var tail := Double(x, q) + [q];
      assert [q] + Double(x, q) + [q] == [q] + tail && tail[0] == x[0];
      CollapseKeep(q, tail, q);
    }
  }

  /** Doubling a run of quotes gives a run twice as long. */
  lemma {:induction false} DoubleQuotes(x: string)
    requires AllQuotes(x)
    ensures |Double(x, '"')| == 2 * |x| && AllQuotes(Double(x, '"'))
  {
    if x != [] {
      assert AllQuotes(x[1..]) by {
        assert forall k :: 0 <= k < |x[1..]| ==> x[1..][k] == x[k + 1];
      }
      DoubleQuotes(x[1..]);
    }
  }

  /** Collapsing a run of quotes of even length halves it. */
  lemma {:induction false} CollapseQuotes(s: string)
    requires AllQuotes(s) && |s| % 2 == 0
    ensures |Collapse(s, '"')| == |s| / 2 && AllQuotes(Collapse(s, '"'))
  {
    if s != [] {
      assert AllQuotes(s[2..]) by {
        assert forall k :: 0 <= k < |s[2..]| ==> s[2..][k] == s[k + 2];
      }
      CollapseQuotes(s[2..]);
    }
  }

  /** Text without a backslash has no escape to decode. */
  lemma {:induction false} DecodeWithoutBackslash(s: string)
    requires '\\' !in s
    ensures DecodeEscapes(s) == s
  {
    if s != [] {
      assert '\\' !in s[1..] by {
        assert forall k :: 0 <= k < |s[1..]| ==> s[1..][k] == s[k + 1];
      }
      DecodeWithoutBackslash(s[1..]);
      assert s == [s[0]] + s[1..];
    }
  }

  /**
   * As written, the string leaf of a literal reads the literal's text back
   * exactly when that text is empty or holds a character other than a
   * quote; a text of nothing but quotes loses one of them.
   */
  lemma StringLeafAsWrittenAgrees(x: string)
    ensures StringLeafAsWritten(Quoted(x)) == StringLeaf(Quoted(x))
        <==> x == [] || exists i :: 0 <= i < |x| && x[i] != '"'
    ensures x != [] && AllQuotes(x) ==> StringLeafAsWritten(Quoted(x)) == Ok("'" + x[1..] + "'")
  {
    var q := '"';
    var raw := Quoted(x);
    assert raw == [q] + Double(x, q) + [q];
    StringLeafReadsLiteral(x);
    if x == [] {
      assert raw == [q, q];
      assert raw[2..] == [];
      assert Collapse(raw, q) == [q];
      assert StripOne([q]) == Some("");
    } else if exists i :: 0 <= i < |x| && x[i] != q {
      CollapseQuoted(x, q);
      assert StripOne([q] + x + [q]) == Some(x);
    } else {
      assert AllQuotes(x);
      DoubleQuotes(x);
      assert AllQuotes(raw) by {
        assert forall k :: 1 <= k < |raw| - 1 ==> raw[k] == Double(x, q)[k - 1];
      }
      CollapseQuotes(raw);
      var c := Collapse(raw, q);
      assert |c| == |x| + 1;
      assert StripOne(c) == Some(c[1..|c| - 1]);
      assert c[1..|c| - 1] == x[1..] by {
        assert forall k :: 0 <= k < |x[1..]| ==> c[1..|c| - 1][k] == q == x[1..][k];
      }
      assert '\\' !in x[1..] by {
        assert forall k :: 0 <= k < |x[1..]| ==> x[1..][k] == q;
      }
      assert '\\' !in x by {
        assert forall k :: 0 <= k < |x| ==> x[k] == q;
      }
      DecodeWithoutBackslash(x[1..]);
      DecodeWithoutBackslash(x);
      assert |"'" + x[1..] + "'"| != |"'" + x + "'"|;
    }
  }

  /**
   * A pattern string leaf: collapse doubled backquotes, drop the first two
   * and the last characters, decode; a first character other than a
   * backquote names the pattern function `pt_<char>` that is applied.
   */
  function PatternLeaf(raw: string): (r: Result<string, Fault>)
    ensures r.Ok? <==> |Collapse(raw, '`')| >= 2
  {
    match StripTwo(Collapse(raw, '`'))
    case None => Err(NoMethod)
    case Some(inner) =>
      var res := "'" + DecodeEscapes(inner) + "'";
      if raw[0] == '`' then Ok(res) else Ok("call_func(\"pt_" + [raw[0]] + "\", " + res + ")")
  }

  // ---------------------------------------------------------------------
  // Leaves

  /** The text of a leaf that is read as a String; an Integer or nil there is outside the model. */
  function RawText(raw: Raw): Result<string, Fault> {
    if raw.Text? then Ok(raw.s) else Err(Unmodelled)
  }

  function Lift(r: Result<string, Fault>): Result<Value, Fault> {
    match r
    case Ok(s) => Ok(StrValue(s))
    case Err(f) => Err(f)
  }

  /**
   * `compile_leaf`: text for numbers, characters, names, strings and
   * pattern strings; nil for any other kind (after a warning on STDERR).
   * Infinity (a Float) and op-quotes are outside the model.
   */
  function CompileLeaf(t: Token): (r: Result<Value, Fault>)
    ensures r == Ok(NilValue) <==> t.kind !in {Number, Character, Infinity, Word, Str, PatternString, OpQuote}
  {
    if t.kind == Infinity || t.kind == OpQuote then Err(Unmodelled)
    else if t.kind !in {Number, Character, Word, Str, PatternString} then Ok(NilValue)
    else
      match RawText(t.raw)
      case Err(f) => Err(f)
      case Ok(s) =>
        if t.kind == Number then Lift(NumberLeaf(s))
        else if t.kind == Character then Lift(CharacterLeaf(s))
        else if t.kind == Word then Ok(StrValue(WordLeaf(s)))
        else if t.kind == Str then Lift(StringLeafAsWritten(s))
        else Lift(PatternLeaf(s))
  }
}
