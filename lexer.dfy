/**
 * The lexer (`TidyTokenizer`): a cursor over the source text that, at each
 * position, tries a fixed chain of token classes and keeps the first that
 * matches. The regular expressions of the source are written here as
 * predicates on the text that match exactly at the cursor.
 */
module Lexer {
  import opened Wrappers
  import opened Faults
  import opened Tokens
  import opened Streams
  import Operators

  // ---------------------------------------------------------------------
  // Character classes

  /** `/^\d$/` */
  predicate IsDigit(c: char) { '0' <= c <= '9' }

  /** `/^\s$/`: space, tab, line feed, vertical tab, form feed, carriage return. */
  predicate IsSpace(c: char) {
    c == ' ' || c == '\t' || c == '\n' || c == '\U{000B}' || c == '\U{000C}' || c == '\r'
  }

  /** `\w`: ASCII letters, digits and underscore. */
  predicate IsWordChar(c: char) {
    ('a' <= c <= 'z') || ('A' <= c <= 'Z') || IsDigit(c) || c == '_'
  }

  /** `number_separator?` */
  predicate IsNumberSeparator(c: char) { c == 'b' || c == 'e' || c == '.' }

  /** `number_terminator?` */
  predicate IsNumberTerminator(c: char) { c == 'r' || c == 'i' || c == 'f' }

  predicate IsNumberBody(c: char) { IsDigit(c) || IsNumberSeparator(c) }

  /** The character classes the lexer reads runs of. */
  datatype CharClass = NumberBody | NumberTerminators | Spaces | WordChars

  predicate InClass(cls: CharClass, c: char) {
    match cls
    case NumberBody => IsNumberBody(c)
    case NumberTerminators => IsNumberTerminator(c)
    case Spaces => IsSpace(c)
    case WordChars => IsWordChar(c)
  }

  /**
   * The infinity literal as it stands in the source file: three characters
   * (the UTF-8 bytes of the infinity sign read as Windows-1252), so a single
   * current character never equals it.
   */
  const InfinityGlyph: string := "\U{00E2}\U{02C6}\U{017E}"

  // ---------------------------------------------------------------------
  // Matching at the cursor

  /** The end of the maximal run of characters satisfying `p` that starts at `i`. */
  function Span(code: string, i: nat, p: CharClass): (j: nat)
    requires i <= |code|
    ensures i <= j <= |code|
    decreases |code| - i
  {
    if i < |code| && InClass(p, code[i]) then Span(code, i + 1, p) else i
  }

  /** The run is maximal: every character in it is in the class, and the one after it is not. */
  lemma {:induction false} SpanIsMaximalRun(code: string, i: nat, p: CharClass)
    requires i <= |code|
    ensures forall k :: i <= k < Span(code, i, p) ==> InClass(p, code[k])
    ensures Span(code, i, p) == |code| || !InClass(p, code[Span(code, i, p)])
    decreases |code| - i
  {
    if i < |code| && InClass(p, code[i]) {
      SpanIsMaximalRun(code, i + 1, p);
    }
  }

  /** A scan that stops at the first character failing `p` ends exactly at Span. */
  lemma SpanUnique(code: string, i: nat, p: CharClass, j: nat)
    requires i <= j <= |code|
    requires forall k :: i <= k < j ==> InClass(p, code[k])
    requires j == |code| || !InClass(p, code[j])
    ensures Span(code, i, p) == j
    decreases j - i
  {
    if i < j {
      SpanUnique(code, i + 1, p, j);
    }
  }

  predicate IsPrefixAt(code: string, p: nat, s: string) {
    p + |s| <= |code| && code[p..p + |s|] == s
  }

  predicate AllWordChars(s: string) {
    |s| > 0 && forall k :: 0 <= k < |s| ==> IsWordChar(s[k])
  }

  /**
   * One alternative of `OPERATOR_REGEX` matches at `p`: the lexeme itself,
   * followed by a word boundary `\b` when the lexeme is made of word characters.
   */
  predicate LexemeMatches(code: string, p: nat, op: string) {
    IsPrefixAt(code, p, op) &&
    (AllWordChars(op) ==> p + |op| == |code| || !IsWordChar(code[p + |op|]))
  }

  /** Regex alternation: the first lexeme of the list that matches at `p`. */
  function FirstMatch(code: string, p: nat, ops: seq<string>): (r: Option<string>)
    ensures r.Some? ==> r.value in ops && LexemeMatches(code, p, r.value)
    ensures r.None? <==> forall op :: op in ops ==> !LexemeMatches(code, p, op)
  {
    if ops == [] then None
    else if LexemeMatches(code, p, ops[0]) then Some(ops[0])
    else
      assert forall op :: op in ops ==> op == ops[0] || op in ops[1..];
      FirstMatch(code, p, ops[1..])
  }

  /** No lexeme listed before the one chosen matches. */
  lemma {:induction false} FirstMatchIsFirst(code: string, p: nat, ops: seq<string>) returns (i: nat)
    requires FirstMatch(code, p, ops).Some?
    ensures i < |ops| && ops[i] == FirstMatch(code, p, ops).value
    ensures forall k :: 0 <= k < i ==> !LexemeMatches(code, p, ops[k])
  {
    if LexemeMatches(code, p, ops[0]) {
      i := 0;
    } else {
      var j := FirstMatchIsFirst(code, p, ops[1..]);
      i := j + 1;
    }
  }

  /** When exactly one lexeme of the list matches, the alternation picks it. */
  lemma {:induction false} FirstMatchOnly(code: string, p: nat, ops: seq<string>, op: string)
    requires op in ops && LexemeMatches(code, p, op)
    requires forall o :: o in ops && LexemeMatches(code, p, o) ==> o == op
    ensures FirstMatch(code, p, ops) == Some(op)
  {
    if !LexemeMatches(code, p, ops[0]) {
      assert op != ops[0] && op in ops[1..];
      FirstMatchOnly(code, p, ops[1..], op);
    }
  }

  /** A character that is an operator lexeme on its own. */
  predicate IsOperatorChar(c: char) {
    c == '@' || c == '/' || c == '*' || c == '+' || c == '-'
  }

  /**
   * `operator?`: what `OPERATOR_REGEX` matches exactly at the cursor, written
   * out for this table (lemma OperatorAtIsRegexMatch).
   */
  function OperatorAt(code: string, p: nat): (r: Option<string>)
    ensures r.Some? ==> 1 <= |r.value| <= 2 && p + |r.value| <= |code| && code[p..p + |r.value|] == r.value
  {
    if p + 2 <= |code| && code[p] == '/' && code[p + 1] == '/' then Some("//")
    else if p < |code| && IsOperatorChar(code[p]) then Some([code[p]])
    else None
  }

  /**
   * The operator scan is the regex alternation over the lexeme list: the
   * first lexeme, in the list's order, that occurs at the cursor.
   */
  lemma OperatorAtIsRegexMatch(code: string, p: nat)
    ensures OperatorAt(code, p) == FirstMatch(code, p, Operators.OperatorList)
  {
    if p + 2 <= |code| && code[p] == '/' && code[p + 1] == '/' {
      assert code[p..p + 2] == "//";
      assert LexemeMatches(code, p, Operators.OperatorList[0]);
    } else if p < |code| && IsOperatorChar(code[p]) {
      SingleOperatorMatch(code, p);
    } else {
      assert forall op :: op in Operators.OperatorList ==> !IsPrefixAt(code, p, op);
    }
  }

  /** Without `//` at `p`, an operator character is the only lexeme that matches there. */
  lemma SingleOperatorMatch(code: string, p: nat)
    requires p < |code| && IsOperatorChar(code[p])
    requires !(p + 2 <= |code| && code[p] == '/' && code[p + 1] == '/')
    ensures FirstMatch(code, p, Operators.OperatorList) == Some([code[p]])
  {
    var ops := Operators.OperatorList;
    assert code[p..p + 1] == [code[p]];
    assert !IsPrefixAt(code, p, "//");
    forall op | op in ops && LexemeMatches(code, p, op) ensures op == [code[p]] {
      assert op != "//";
      assert |op| == 1;
      assert code[p..p + 1] == op;
    }
    FirstMatchOnly(code, p, ops, [code[p]]);
  }

  /**
   * The body of `OP_QUOTE_REGEX`, `(\s*OP\s*)+\)`, scanned from `i`: returns
   * the index just past the closing parenthesis. `seen` records that at least
   * one operator was read.
   */
  function OpQuoteBody(code: string, i: nat, seen: bool): (r: Option<nat>)
    requires i <= |code|
    ensures r.Some? ==> i < r.value <= |code| && code[r.value - 1] == ')'
    decreases |code| - i
  {
    if i == |code| then None
    else if IsSpace(code[i]) then OpQuoteBody(code, i + 1, seen)
    else if OperatorAt(code, i).Some? then
      OpQuoteBody(code, i + |OperatorAt(code, i).value|, true)
    else if code[i] == ')' && seen then Some(i + 1)
    else None
  }

  /** `op_quote?`: the length of an op-quote such as `(+)` starting exactly at `p`. */
  function OpQuoteAt(code: string, p: nat): (r: Option<nat>)
    requires p < |code|
    ensures r.Some? ==> 3 <= r.value && p + r.value <= |code| && code[p] == '(' && code[p + r.value - 1] == ')'
  {
    if code[p] == '(' then
      match OpQuoteBody(code, p + 1, false)
      case Some(e) =>
        if e - p >= 3 then Some(e - p) else None
      case None => None
    else None
  }

  /**
   * The body of `STRING_REGEX`, `([^"]|"")*"`, scanned greedily from `i`.
   * When the text ends without a closing quote the regex backtracks: the
   * first quote of the last `""` pair becomes the closing quote.
   */
  function StringEnd(code: string, i: nat, lastPair: Option<nat>): (r: Option<nat>)
    requires i <= |code|
    requires lastPair.Some? ==> lastPair.value + 2 <= i && code[lastPair.value] == '"'
    ensures r.Some? ==> 0 < r.value <= |code| && code[r.value - 1] == '"'
    ensures r.Some? ==> r.value > i || (lastPair.Some? && r.value == lastPair.value + 1)
    decreases |code| - i
  {
    if i == |code| then
      if lastPair.Some? then Some(lastPair.value + 1) else None
    else if code[i] != '"' then StringEnd(code, i + 1, lastPair)
    else if i + 1 < |code| && code[i + 1] == '"' then StringEnd(code, i + 2, Some(i))
    else Some(i + 1)
  }

  /** `string?`: the length of a double-quoted string literal starting exactly at `p`. */
  function StringAt(code: string, p: nat): (r: Option<nat>)
    requires p < |code|
    ensures r.Some? ==> 2 <= r.value && p + r.value <= |code| && code[p] == '"'
  {
    if code[p] == '"' then
      match StringEnd(code, p + 1, None)
      case Some(e) => Some(e - p)
      case None => None
    else None
  }

  // ---------------------------------------------------------------------
  // The priority chain of `read_token`

  /** The kinds a fixed-character alternative produces: none that another alternative produces. */
  type PlainKind = k: Kind
    | k.Separator? || k.BlockOpen? || k.BlockClose? || k.BlockSplit? || k.ParenOpen? || k.ParenClose? || k.Comma?
    witness Separator

  /** One alternative of `read_token`'s `elsif` chain. */
  datatype Rule =
    | NumberRule | BlankRule | OpQuoteRule | StringRule | OperatorRule
    | CharacterRule | InfinityRule | BracketRule | WordRule
    | SingleRule(ch: char, kind: PlainKind)  // one fixed character, one fixed kind

  /** The alternatives in the order `read_token` tries them; anything else is `unknown`. */
  const Rules: seq<Rule> := [
    NumberRule, BlankRule, OpQuoteRule, StringRule, OperatorRule,
    SingleRule(';', Separator), CharacterRule, InfinityRule,
    SingleRule('{', BlockOpen), SingleRule('}', BlockClose), SingleRule(':', BlockSplit),
    BracketRule, WordRule,
    SingleRule('(', ParenOpen), SingleRule(')', ParenClose), SingleRule(',', Comma)
  ]

  /** The guard of an alternative at `p`. */
  predicate Applies(rule: Rule, code: string, p: nat)
    requires p < |code|
  {
    match rule
    case NumberRule => IsDigit(code[p])
    case BlankRule => IsSpace(code[p])
    case OpQuoteRule => OpQuoteAt(code, p).Some?
    case StringRule => StringAt(code, p).Some?
    case OperatorRule => OperatorAt(code, p).Some?
    case CharacterRule => code[p] == '\''
    case InfinityRule => [code[p]] == InfinityGlyph
    case BracketRule => code[p] == '[' || code[p] == ']'
    case WordRule => IsWordChar(code[p])
    case SingleRule(ch, _) => code[p] == ch
  }

  /**
   * What an alternative whose guard holds produces: a lexeme, or the
   * `TypeError` of a character literal cut off by the end of the text.
   */
  function Outcome(rule: Rule, code: string, p: nat, inRange: bool): (r: Result<Lexeme, Fault>)
    requires p < |code| && Applies(rule, code, p)
    ensures r.Ok? ==> 1 <= r.value.len && p + r.value.len <= |code|
  {
    match rule
    case NumberRule => Ok(Lexeme(Number, Span(code, Span(code, p, NumberBody), NumberTerminators) - p))
    case BlankRule => Ok(Lexeme(Blank, Span(code, p, Spaces) - p))
    case OpQuoteRule => Ok(Lexeme(OpQuote, OpQuoteAt(code, p).value))
    case StringRule => Ok(Lexeme(Str, StringAt(code, p).value))
    case OperatorRule => Ok(Lexeme(Operator, |OperatorAt(code, p).value|))
    case CharacterRule => if p + 1 < |code| then Ok(Lexeme(Character, 2)) else Err(LoneQuote)
    case InfinityRule => Ok(Lexeme(Infinity, 1))
    case BracketRule => Ok(Lexeme(if inRange then RangeClose else RangeOpen, 1))
    case WordRule => Ok(Lexeme(Word, Span(code, p, WordChars) - p))
    case SingleRule(_, kind) => Ok(Lexeme(kind, 1))
  }
  /**
   * The kind of the token an alternative produces: never `unknown`, and the
   * number, operator and infinity kinds only from their own alternatives.
   */
  function KindOf(rule: Rule, inRange: bool): (k: Kind)
    ensures k != Unknown
    ensures k == Number <==> rule == NumberRule
    ensures k == Operator <==> rule == OperatorRule
    ensures k == Infinity <==> rule == InfinityRule
  {
    match rule
    case NumberRule => Number
    case BlankRule => Blank
    case OpQuoteRule => OpQuote
    case StringRule => Str
    case OperatorRule => Operator
    case CharacterRule => Character
    case InfinityRule => Infinity
    case BracketRule => if inRange then RangeClose else RangeOpen
    case WordRule => Word
    case SingleRule(_, kind) => kind
  }




  /** The alternatives tried in order: the first whose guard holds decides, and none gives `unknown`. */
  function ClassifyWith(rules: seq<Rule>, code: string, p: nat, inRange: bool): (r: Result<Lexeme, Fault>)
    requires p < |code|
    ensures r.Ok? ==> 1 <= r.value.len && p + r.value.len <= |code|
    ensures r.Err? ==> code[p] == '\'' && p + 1 == |code| && r.error == LoneQuote
    ensures r.Ok? && (r.value.kind == RangeOpen || r.value.kind == RangeClose) ==>
              r.value.kind == (if inRange then RangeClose else RangeOpen)
  {
    if rules == [] then Ok(Lexeme(Unknown, 1))
    else if Applies(rules[0], code, p) then Outcome(rules[0], code, p, inRange)
    else ClassifyWith(rules[1..], code, p, inRange)
  }

  /** `read_token`'s decision at `p`. */
  function Classify(code: string, p: nat, inRange: bool): (r: Result<Lexeme, Fault>)
    requires p < |code|
    ensures r.Ok? ==> 1 <= r.value.len && p + r.value.len <= |code|
    ensures r.Err? ==> code[p] == '\'' && p + 1 == |code| && r.error == LoneQuote
    ensures r.Ok? && (r.value.kind == RangeOpen || r.value.kind == RangeClose) ==>
              r.value.kind == (if inRange then RangeClose else RangeOpen)
  {
    ClassifyWith(Rules, code, p, inRange)
  }

  /** The first alternative of the list whose guard holds. */
  function FirstApplicable(rules: seq<Rule>, code: string, p: nat): (r: Option<Rule>)
    requires p < |code|
    ensures r.Some? ==> Applies(r.value, code, p)
  {
    if rules == [] then None
    else if Applies(rules[0], code, p) then Some(rules[0])
    else FirstApplicable(rules[1..], code, p)
  }

  /** When no alternative is found, no guard holds. */
  lemma {:induction false} NoneApplicable(rules: seq<Rule>, code: string, p: nat)
    requires p < |code| && FirstApplicable(rules, code, p).None?
    ensures forall i :: 0 <= i < |rules| ==> !Applies(rules[i], code, p)
  {
    if rules != [] {
      NoneApplicable(rules[1..], code, p);
      assert forall i :: 1 <= i < |rules| ==> rules[i] == rules[1..][i - 1];
    }
  }

  /** The decision is the outcome of the first alternative that applies. */
  lemma {:induction false} ClassifyByFirst(rules: seq<Rule>, code: string, p: nat, inRange: bool)
    requires p < |code|
    ensures ClassifyWith(rules, code, p, inRange) ==
      match FirstApplicable(rules, code, p)
      case Some(rule) => Outcome(rule, code, p, inRange)
      case None => Ok(Lexeme(Unknown, 1))
  {
    if rules != [] && !Applies(rules[0], code, p) {
      ClassifyByFirst(rules[1..], code, p, inRange);
    }
  }

  /** `read_token`'s decision as a decider on `code` (past the end it is never consulted). */
  function Decide(code: string): Decider {
    (q: nat, inRange: bool) => if q < |code| then Classify(code, q, inRange) else Ok(Lexeme(Unknown, 1))
  }

  lemma DecideIsSound(code: string)
    ensures Sound(code, Decide(code))
  {
    forall q: nat, inRange: bool | q < |code|
      ensures Decide(code)(q, inRange) == Classify(code, q, inRange)
    {
    }
  }

  /**
   * `each` from position `p`: tokens until the end of the text, or until
   * `read_token` raises (only at a trailing lone quote).
   */
  function LexFrom(code: string, p: nat, inRange: bool): (s: Stream) {
    DecideIsSound(code);
    LexWith(code, Decide(code), p, inRange)
  }

  /** `tokenize(code)`: a fresh tokenizer run to the end. */
  function Tokenize(code: string): Stream {
    LexFrom(code, 0, false)
  }

  /** One step of `each`: the token at `p`, then the tokens after it. */
  lemma LexStep(code: string, p: nat, inRange: bool)
    requires p < |code|
    ensures LexFrom(code, p, inRange) ==
      match Classify(code, p, inRange)
      case Err(f) => Stream([], Some(f))
      case Ok(lx) =>
        var rest := LexFrom(code, p + lx.len, NextInRange(inRange, lx.kind));
        Stream([TokenAt(code, p, lx)] + rest.items, rest.fault)
  {
    DecideIsSound(code);
    assert Decide(code)(p, inRange) == Classify(code, p, inRange);
  }

  /**
   * Lexing loses and invents nothing: the raws concatenate to the input from
   * `p`. The only fault is a trailing lone `'`, the one character no token
   * covers.
   */
  lemma LexCoversInput(code: string, p: nat, inRange: bool)
    requires p <= |code|
    ensures Consumed(LexFrom(code, p, inRange)) == code[p..]
    ensures LexFrom(code, p, inRange).fault.Some? ==> LexFrom(code, p, inRange).fault == Some(LoneQuote)
  {
    DecideIsSound(code);
    LexWithCovers(code, Decide(code), p, inRange);
  }

  /**
   * Every token carries its own offset, line and column, and the tokens tile
   * the input: the first starts at `p` and each starts where the previous
   * one ended.
   */
  lemma LexTokensTile(code: string, p: nat, inRange: bool)
    ensures Tiling(code, LexFrom(code, p, inRange).items, p)
  {
    DecideIsSound(code);
    LexWithTiles(code, Decide(code), p, inRange);
  }

  /**
   * The single `@in_range` toggle makes successive `[`/`]` characters open,
   * close, open, ... whichever bracket character is used: ranges cannot nest.
   */
  lemma BracketsAlternate(code: string, p: nat, inRange: bool)
    ensures var ks := RangeKinds(LexFrom(code, p, inRange).items);
      ks == Alternating(inRange, |ks|)
  {
    DecideIsSound(code);
    LexWithAlternates(code, Decide(code), p, inRange);
  }

  // ---------------------------------------------------------------------
  // Properties of single tokens

  /**
   * An operator token is the longest lexeme of the table that starts at the
   * cursor: longer lexemes come first in the list, and the first match wins.
   */
  lemma OperatorIsLongestMatch(code: string, p: nat, inRange: bool)
    requires p < |code|
    requires Classify(code, p, inRange).Ok? && Classify(code, p, inRange).value.kind == Operator
    ensures OperatorAt(code, p).Some?
    ensures var op := OperatorAt(code, p).value;
      && Classify(code, p, inRange).value.len == |op| && code[p..p + |op|] == op
      && op in Operators.Precedence
      && FirstMatch(code, p, Operators.OperatorList) == Some(op)
      && forall other :: other in Operators.Precedence && IsPrefixAt(code, p, other) ==> |other| <= |op|
  {
    Decision(code, p, inRange);
    assert FirstApplicable(Rules, code, p) == Some(OperatorRule);
    OperatorAtIsRegexMatch(code, p);
    OperatorAtIsLongest(code, p);
  }

  /** The operator scan takes the longest table lexeme at the cursor. */
  lemma OperatorAtIsLongest(code: string, p: nat)
    requires OperatorAt(code, p).Some?
    ensures var m := OperatorAt(code, p).value;
      && m in Operators.Precedence
      && forall other :: other in Operators.Precedence && IsPrefixAt(code, p, other) ==> |other| <= |m|
  {
    var m := OperatorAt(code, p).value;
    forall other | other in Operators.Precedence && IsPrefixAt(code, p, other)
      ensures |other| <= |m|
    {
      if other == "//" {
        assert code[p..p + 2][0] == code[p] && code[p..p + 2][1] == code[p + 1];
      }
    }
  }

  /** The decision is alternative `k`'s outcome when its guard holds and no earlier guard does. */
  lemma {:induction false} DecidedBy(rules: seq<Rule>, code: string, p: nat, inRange: bool, k: nat)
    requires p < |code|
    requires k < |rules| && Applies(rules[k], code, p)
    requires forall i :: 0 <= i < k ==> !Applies(rules[i], code, p)
    ensures ClassifyWith(rules, code, p, inRange) == Outcome(rules[k], code, p, inRange)
  {
    if k > 0 {
      assert !Applies(rules[0], code, p);
      assert forall i :: 0 <= i < k - 1 ==> rules[1..][i] == rules[i + 1];
      DecidedBy(rules[1..], code, p, inRange, k - 1);
    }
  }

  /**
   * How the decision at `p` comes about, alternative by alternative, for the
   * lemmas about single tokens.
   */
  lemma Decision(code: string, p: nat, inRange: bool)
    requires p < |code|
    ensures var d, c := FirstApplicable(Rules, code, p), Classify(code, p, inRange);
      && (d.None? ==> c == Ok(Lexeme(Unknown, 1)))
      && (d.Some? && c.Ok? ==> c.value.kind == KindOf(d.value, inRange))
      && (d == Some(NumberRule) ==> c == Outcome(NumberRule, code, p, inRange))
      && (d == Some(BlankRule) ==> c == Outcome(BlankRule, code, p, inRange))
      && (d == Some(OpQuoteRule) ==> c == Outcome(OpQuoteRule, code, p, inRange))
      && (d == Some(StringRule) ==> c == Outcome(StringRule, code, p, inRange))
      && (d == Some(OperatorRule) ==> c == Outcome(OperatorRule, code, p, inRange))
      && (d == Some(CharacterRule) ==> c == Outcome(CharacterRule, code, p, inRange))
      && (d == Some(InfinityRule) ==> c == Outcome(InfinityRule, code, p, inRange))
      && (d == Some(BracketRule) ==> c == Outcome(BracketRule, code, p, inRange))
      && (d == Some(WordRule) ==> c == Outcome(WordRule, code, p, inRange))
      && (d.Some? && d.value.SingleRule? ==> c == Ok(Lexeme(d.value.kind, 1)))
  {
    ClassifyByFirst(Rules, code, p, inRange);
  }

  /** The alternatives by position. */
  lemma RulesByIndex()
    ensures |Rules| == 16
    ensures Rules[0] == NumberRule && Rules[1] == BlankRule && Rules[2] == OpQuoteRule
    ensures Rules[3] == StringRule && Rules[4] == OperatorRule && Rules[5] == SingleRule(';', Separator)
    ensures Rules[6] == CharacterRule && Rules[7] == InfinityRule && Rules[8] == SingleRule('{', BlockOpen)
    ensures Rules[9] == SingleRule('}', BlockClose) && Rules[10] == SingleRule(':', BlockSplit)
    ensures Rules[11] == BracketRule && Rules[12] == WordRule && Rules[13] == SingleRule('(', ParenOpen)
    ensures Rules[14] == SingleRule(')', ParenClose) && Rules[15] == SingleRule(',', Comma)
  {
  }

  /** A digit at the cursor starts a number token: a maximal run of body characters, then of terminators. */
  lemma NumberExtent(code: string, p: nat, inRange: bool)
    requires p < |code| && IsDigit(code[p])
    ensures Classify(code, p, inRange) ==
      Ok(Lexeme(Number, Span(code, Span(code, p, NumberBody), NumberTerminators) - p))
  {
    DecidedBy(Rules, code, p, inRange, 0);
    assert Rules[0] == NumberRule;
  }

  /**
   * The `n` characters at `p` are a non-empty maximal run of digits and
   * separators ending at `k`, followed by a maximal (possibly empty) run of
   * terminators.
   */
  predicate NumberRuns(code: string, p: nat, k: nat, n: nat) {
    var e := p + n;
    && p < k <= e <= |code|
    && (forall i :: p <= i < k ==> IsNumberBody(code[i]))
    && (forall i :: k <= i < e ==> IsNumberTerminator(code[i]))
    && (k == |code| || !IsNumberBody(code[k]))
    && (e == |code| || !IsNumberTerminator(code[e]))
  }

  /** A token is a number exactly when a digit starts it. */
  lemma NumberKind(code: string, p: nat, inRange: bool)
    requires p < |code|
    ensures Classify(code, p, inRange).Ok? && Classify(code, p, inRange).value.kind == Number <==> IsDigit(code[p])
  {
    Decision(code, p, inRange);
  }

  /**
   * A number token starts with a digit, continues with digits and the
   * separators `b`, `e`, `.`, and ends with a (possibly empty) run of the
   * terminators `r`, `i`, `f`; both runs are maximal.
   */
  lemma NumberShape(code: string, p: nat, inRange: bool)
    requires p < |code| && IsDigit(code[p])
    ensures Classify(code, p, inRange).Ok?
    ensures exists k :: NumberRuns(code, p, k, Classify(code, p, inRange).value.len)
  {
    NumberExtent(code, p, inRange);
    var k := Span(code, p, NumberBody);
    var e := Span(code, k, NumberTerminators);
    SpanIsMaximalRun(code, p, NumberBody);
    SpanIsMaximalRun(code, k, NumberTerminators);
    assert InClass(NumberBody, code[p]);
    assert NumberRuns(code, p, k, e - p);
  }

  /**
   * Priority: at a `(`, the op-quote alternative comes first and the
   * `paren_open` one applies only when no op-quote is found.
   */
  lemma ParenDecision(code: string, p: nat, inRange: bool)
    requires p < |code| && code[p] == '('
    ensures Classify(code, p, inRange) ==
      if OpQuoteAt(code, p).Some? then Ok(Lexeme(OpQuote, OpQuoteAt(code, p).value))
      else Ok(Lexeme(ParenOpen, 1))
  {
    RulesByIndex();
    if OpQuoteAt(code, p).Some? {
      DecidedBy(Rules, code, p, inRange, 2);
    } else {
      assert OperatorAt(code, p).None?;
      assert StringAt(code, p).None?;
      DecidedBy(Rules, code, p, inRange, 13);
    }
  }

  /** An op-quote such as `(+)` is one `op_quote` token, not a `paren_open`. */
  lemma OpQuoteBeforeParen()
    ensures Classify("(+)", 0, false) == Ok(Lexeme(OpQuote, 3))
  {
    assert OpQuoteAt("(+)", 0) == Some(3) by {
      assert OperatorAt("(+)", 1) == Some("+");
      assert OpQuoteBody("(+)", 1, false) == Some(3);
    }
    ParenDecision("(+)", 0, false);
  }

  /** A parenthesis not followed by operators alone is a `paren_open`. */
  lemma ParenWithoutOperator()
    ensures Classify("(x)", 0, false) == Ok(Lexeme(ParenOpen, 1))
  {
    assert OpQuoteAt("(x)", 0) == None by {
      assert OperatorAt("(x)", 1) == None;
      assert OpQuoteBody("(x)", 1, false) == None;
    }
    ParenDecision("(x)", 0, false);
  }

  /**
   * A character that starts no other class becomes a one-character
   * `unknown` token, and lexing goes on after it.
   */
  lemma UnknownIsOneChar(code: string, p: nat, inRange: bool)
    requires p < |code|
    requires Classify(code, p, inRange).Ok? && Classify(code, p, inRange).value.kind == Unknown
    ensures Classify(code, p, inRange).value.len == 1
    ensures !IsDigit(code[p]) && !IsSpace(code[p]) && !IsWordChar(code[p]) && !IsOperatorChar(code[p])
    ensures code[p] !in {';', '\'', '{', '}', ':', '[', ']', ')', ','}
    ensures code[p] == '(' ==> OpQuoteAt(code, p).None?
    ensures code[p] == '"' ==> StringAt(code, p).None?
  {
    UnknownMeansNoAlternative(code, p, inRange);
    NoneApplicable(Rules, code, p);
    RulesByIndex();
    assert OperatorAt(code, p).None?;
  }

  /** Only the fall-through of the chain produces `unknown`. */
  lemma UnknownMeansNoAlternative(code: string, p: nat, inRange: bool)
    requires p < |code|
    ensures Classify(code, p, inRange).Ok? && Classify(code, p, inRange).value.kind == Unknown
      <==> FirstApplicable(Rules, code, p).None?
    ensures FirstApplicable(Rules, code, p).None? ==> Classify(code, p, inRange) == Ok(Lexeme(Unknown, 1))
  {
    Decision(code, p, inRange);
  }

  /** The infinity alternative never fires: no token is ever of kind `infinity`. */
  lemma NoInfinityToken(code: string, p: nat, inRange: bool)
    requires p < |code|
    ensures Classify(code, p, inRange).Ok? ==> Classify(code, p, inRange).value.kind != Infinity
  {
    var d := FirstApplicable(Rules, code, p);
    Decision(code, p, inRange);
    if d.Some? {
      assert |InfinityGlyph| == 3;
    }
  }

  /** `[` and `]` are interchangeable: the kind depends on the toggle alone. */
  lemma BracketKind(code: string, p: nat, inRange: bool)
    requires p < |code| && (code[p] == '[' || code[p] == ']')
    ensures Classify(code, p, inRange) == Ok(Lexeme(if inRange then RangeClose else RangeOpen, 1))
  {
    assert |InfinityGlyph| == 3;
    RulesByIndex();
    DecidedBy(Rules, code, p, inRange, 11);
  }
}
