/**
 * The tokenizer object of the source (`TidyTokenizer`): a cursor with its
 * line and column and the bracket toggle, advanced one token at a time.
 */
module Tokenizers {
  import opened Wrappers
  import opened Faults
  import opened Tokens
  import opened Streams
  import opened Lexer

  class Tokenizer {
    const code: string
    var pos: nat
    var line: nat
    var col: nat
    var inRange: bool

    /** `@line` and `@col` are what advancing from offset 0 to `@pos` gives. */
    ghost predicate Valid()
      reads this
    {
      (line, col) == LineCol(code, pos)
    }

    constructor (code: string)
      ensures this.code == code && pos == 0 && line == 1 && col == 1 && !inRange
      ensures Valid()
    {
      this.code := code;
      pos := 0;
      line := 1;
      col := 1;
      inRange := false;
    }

    /** `running?` */
    predicate Running()
      reads this
    {
      pos < |code|
    }

    /** `advance(n)`: one column per character, or a new line on a line feed. */
    method Advance(n: nat)
      requires Valid()
      modifies this`pos, this`line, this`col
      ensures Valid() && pos == old(pos) + n
    {
      var k := 0;
      while k < n
        invariant 0 <= k <= n
        invariant pos == old(pos) + k
        invariant Valid()
      {
        if pos < |code| && code[pos] == '\n' {
          line := line + 1;
          col := 1;
        } else {
          col := col + 1;
        }
        pos := pos + 1;
        k := k + 1;
      }
    }

    /** Consumes a maximal run of characters satisfying `p`, returning the text read. */
    method ReadRun(p: CharClass) returns (run: string)
      requires Valid() && pos <= |code|
      modifies this`pos, this`line, this`col
      ensures Valid()
      ensures old(pos) <= pos == Span(code, old(pos), p) && run == code[old(pos)..pos]
    {
      run := "";
      while pos < |code| && InClass(p, code[pos])
        invariant Valid() && old(pos) <= pos <= |code|
        invariant run == code[old(pos)..pos]
        invariant forall k :: old(pos) <= k < pos ==> InClass(p, code[k])
        decreases |code| - pos
      {
        run := run + [code[pos]];
        Advance(1);
      }
      SpanUnique(code, old(pos), p, pos);
    }

    /**
     * `read_token`: the token at the cursor, whose raw is the text consumed
     * and whose position is where the cursor stood.
     */
    method ReadToken() returns (r: Result<Token, Fault>)
      requires Valid() && Running()
      modifies this`pos, this`line, this`col, this`inRange
      ensures r.Err? <==> Classify(code, old(pos), old(inRange)).Err?
      ensures r.Err? ==> r.error == Classify(code, old(pos), old(inRange)).error
      ensures r.Ok? ==>
        var lx := Classify(code, old(pos), old(inRange)).value;
        && r.value == TokenAt(code, old(pos), lx)
        && pos == old(pos) + lx.len
        && inRange == NextInRange(old(inRange), lx.kind)
        && Valid()
    {
      ClassifyByFirst(Rules, code, pos, inRange);
      match FirstApplicable(Rules, code, pos) {
        case Some(rule) =>
          r := ReadAlternative(rule);
        case None =>
          // The `STDERR.puts` report of an unknown character is not modelled.
          var t := Read(Unknown, 1);
          r := Ok(t);
      }
    }

    /** The body of one `elsif` alternative of `read_token`, whose guard holds. */
    method ReadAlternative(rule: Rule) returns (r: Result<Token, Fault>)
      requires Valid() && Running() && Applies(rule, code, pos)
      modifies this`pos, this`line, this`col, this`inRange
      ensures r.Err? <==> Outcome(rule, code, old(pos), old(inRange)).Err?
      ensures r.Err? ==> r.error == LoneQuote
      ensures r.Ok? ==>
        var lx := Outcome(rule, code, old(pos), old(inRange)).value;
        && r.value == TokenAt(code, old(pos), lx)
        && pos == old(pos) + lx.len
        && inRange == NextInRange(old(inRange), lx.kind)
        && Valid()
    {
      if rule.NumberRule? || rule.BlankRule? || rule.WordRule? {
        var t := ReadRunToken(rule);
        r := Ok(t);
      } else {
        r := ReadFixedToken(rule);
      }
    }

    /** The alternatives that read a maximal run of characters: number, blank and word. */
    method ReadRunToken(rule: Rule) returns (t: Token)
      requires Valid() && Running() && Applies(rule, code, pos)
      requires rule.NumberRule? || rule.BlankRule? || rule.WordRule?
      modifies this`pos, this`line, this`col
      ensures Outcome(rule, code, old(pos), inRange).Ok?
      ensures var lx := Outcome(rule, code, old(pos), inRange).value;
        && t == TokenAt(code, old(pos), lx)
        && pos == old(pos) + lx.len
        && Valid()
    {
      if rule.NumberRule? {
        t := ReadNumber();
      } else if rule.BlankRule? {
        t := ReadRunOf(Blank, Spaces);
      } else {
        t := ReadRunOf(Word, WordChars);
      }
    }

    /** A number: its digits and dots, then any terminator letters. */
    method ReadNumber() returns (t: Token)
      requires Valid() && Running()
      modifies this`pos, this`line, this`col
      ensures pos == Span(code, Span(code, old(pos), NumberBody), NumberTerminators) && Valid()
      ensures t == TokenAt(code, old(pos), Lexeme(Number, pos - old(pos)))
    {
      var start, startLine, startCol := pos, line, col;
      var body := ReadRun(NumberBody);
      var tail := ReadRun(NumberTerminators);
      assert body + tail == code[start..pos];
      t := Token(Text(body + tail), Number, Some(Pos(start, startLine, startCol)));
    }

    /** A maximal run of the characters of `cls`, as one token of kind `kind`. */
    method ReadRunOf(kind: Kind, cls: CharClass) returns (t: Token)
      requires Valid() && Running()
      modifies this`pos, this`line, this`col
      ensures pos == Span(code, old(pos), cls) && Valid()
      ensures t == TokenAt(code, old(pos), Lexeme(kind, pos - old(pos)))
    {
      var start, startLine, startCol := pos, line, col;
      var raw := ReadRun(cls);
      t := Token(Text(raw), kind, Some(Pos(start, startLine, startCol)));
    }

    /** The alternatives whose length is known when their guard holds. */
    method ReadFixedToken(rule: Rule) returns (r: Result<Token, Fault>)
      requires Valid() && Running() && Applies(rule, code, pos)
      requires !(rule.NumberRule? || rule.BlankRule? || rule.WordRule?)
      modifies this`pos, this`line, this`col, this`inRange
      ensures r.Err? <==> Outcome(rule, code, old(pos), old(inRange)).Err?
      ensures r.Err? ==> r.error == LoneQuote
      ensures r.Ok? ==>
        var lx := Outcome(rule, code, old(pos), old(inRange)).value;
        && r.value == TokenAt(code, old(pos), lx)
        && pos == old(pos) + lx.len
        && inRange == NextInRange(old(inRange), lx.kind)
        && Valid()
    {
      var t: Token;
      match rule {
        case OpQuoteRule =>
          t := Read(OpQuote, OpQuoteAt(code, pos).value);
        case StringRule =>
          t := Read(Str, StringAt(code, pos).value);
        case OperatorRule =>
          t := Read(Operator, |OperatorAt(code, pos).value|);
        case CharacterRule =>
          r := ReadCharacter();
          return;
        case BracketRule =>
          var kind := if inRange then RangeClose else RangeOpen;
          inRange := !inRange;
          t := Read(kind, 1);
        case InfinityRule =>
          // One character never equals the three-character literal (lemma NoInfinityToken).
          assert false;
        case SingleRule(ch, k) =>
          t := Read(k, 1);
      }
      r := Ok(t);
    }

    /** Reads `n` characters as one token of kind `kind`. */
    method Read(kind: Kind, n: nat) returns (t: Token)
      requires Valid() && pos + n <= |code|
      modifies this`pos, this`line, this`col
      ensures t == TokenAt(code, old(pos), Lexeme(kind, n))
      ensures pos == old(pos) + n && Valid()
    {
      var start, startLine, startCol := pos, line, col;
      var raw := code[pos..pos + n];
      Advance(n);
      t := Token(Text(raw), kind, Some(Pos(start, startLine, startCol)));
    }

    /** A `'` and the character after it; a `'` that ends the text has none. */
    method ReadCharacter() returns (r: Result<Token, Fault>)
      requires Valid() && Running()
      modifies this`pos, this`line, this`col
      ensures r.Err? <==> old(pos) + 1 == |code|
      ensures r.Err? ==> r.error == LoneQuote
      ensures r.Ok? ==> r.value == TokenAt(code, old(pos), Lexeme(Character, 2))
      ensures r.Ok? ==> pos == old(pos) + 2 && Valid()
    {
      var start, startLine, startCol := pos, line, col;
      var raw := [code[pos]];
      Advance(1);
      if pos == |code| {
        return Err(LoneQuote);
      }
      raw := raw + [code[pos]];
      Advance(1);
      assert raw == code[start..pos];
      r := Ok(Token(Text(raw), Character, Some(Pos(start, startLine, startCol))));
    }

    /**
     * One turn of the `each` loop: the token read is the head of what lexing
     * from the cursor produces, and the rest is what lexing from the new
     * cursor produces; a fault is the whole of what remains.
     */
    method Next() returns (r: Result<Token, Fault>)
      requires Valid() && Running()
      modifies this`pos, this`line, this`col, this`inRange
      ensures r.Err? ==> LexFrom(code, old(pos), old(inRange)) == Stream([], Some(r.error))
      ensures r.Ok? ==> Valid() && old(pos) < pos
      ensures r.Ok? ==>
        var rest := LexFrom(code, pos, inRange);
        LexFrom(code, old(pos), old(inRange)) == Stream([r.value] + rest.items, rest.fault)
    {
      LexStep(code, pos, inRange);
      r := ReadToken();
    }

    /** `each`: reads tokens while the cursor is inside the text. */
    method Each() returns (s: Stream)
      requires Valid()
      modifies this`pos, this`line, this`col, this`inRange
      ensures s == LexFrom(code, old(pos), old(inRange))
    {
      var items: seq<Token> := [];
      while pos < |code|
        invariant Valid()
        invariant LexFrom(code, old(pos), old(inRange)) ==
          var rest := LexFrom(code, pos, inRange); Stream(items + rest.items, rest.fault)
        decreases |code| - pos
      {
        var r := Next();
        if r.Err? {
          return Stream(items, Some(r.error));
        }
        ghost var rest := LexFrom(code, pos, inRange);
        assert items + ([r.value] + rest.items) == (items + [r.value]) + rest.items;
        items := items + [r.value];
      }
      s := Stream(items, None);
    }
  }
}
