/**
 * The token stream `each` produces, for any procedure that decides one
 * token at a time: the lexeme found at an offset, the position bookkeeping
 * of the cursor, and what holds of the stream for every decision procedure
 * that keeps inside the text (coverage, tiling, bracket alternation).
 */
module Streams {
  import opened Wrappers
  import opened Faults
  import opened Tokens

  // ---------------------------------------------------------------------
  // Lexemes and the bracket toggle

  /** What `read_token` decides at a position: the token kind and how many characters it takes. */
  datatype Lexeme = Lexeme(kind: Kind, len: nat)

  /** `@in_range` after a token of the given kind: either bracket flips it. */
  function NextInRange(inRange: bool, kind: Kind): bool {
    if kind == RangeOpen || kind == RangeClose then !inRange else inRange
  }

  // ---------------------------------------------------------------------
  // Position tracking

  /**
   * `(@line, @col)` after `advance` has been applied `p` times from the
   * start: a newline moves to column 1 of the next line, anything else
   * (including the nil past the end) moves one column right.
   */
  function LineCol(code: string, p: nat): (lc: (nat, nat))
    ensures lc.0 >= 1 && lc.1 >= 1
  {
    if p == 0 then (1, 1)
    else
      var prev := LineCol(code, p - 1);
      if p - 1 < |code| && code[p - 1] == '\n' then (prev.0 + 1, 1) else (prev.0, prev.1 + 1)
  }

  function PosAt(code: string, p: nat): Pos {
    Pos(p, LineCol(code, p).0, LineCol(code, p).1)
  }

  /** The token `read_token` returns for a classified lexeme at `p`. */
  function TokenAt(code: string, p: nat, lx: Lexeme): (t: Token)
    requires p + lx.len <= |code|
  {
    Token(Text(code[p..p + lx.len]), lx.kind, Some(PosAt(code, p)))
  }

  /** The number of line feeds in `s`. */
  function CountNewlines(s: string): nat {
    if s == [] then 0 else CountNewlines(s[..|s| - 1]) + (if s[|s| - 1] == '\n' then 1 else 0)
  }

  /** The offset just past the last line feed before `p` (0 when there is none). */
  function LineStart(code: string, p: nat): (s: nat)
    requires p <= |code|
    ensures s <= p
  {
    if p == 0 then 0 else if code[p - 1] == '\n' then p else LineStart(code, p - 1)
  }

  /**
   * The position the lexer tracks is the one a fresh count from offset 0
   * gives: the line is one more than the number of line feeds before `p`,
   * the column one more than the distance from the start of that line.
   */
  lemma {:induction false} LineColIsRecount(code: string, p: nat)
    requires p <= |code|
    ensures LineCol(code, p) == (1 + CountNewlines(code[..p]), p - LineStart(code, p) + 1)
  {
    if p > 0 {
      LineColIsRecount(code, p - 1);
      assert code[..p][..p - 1] == code[..p - 1];
    }
  }

  // ---------------------------------------------------------------------
  // The token stream of a decision procedure

  /**
   * A decision procedure for one token: the lexeme (or fault) at an offset
   * under a given state of the bracket toggle.
   */
  type Decider = (nat, bool) -> Result<Lexeme, Fault>

  /**
   * What the stream needs of the decision at every offset inside the text:
   * a lexeme of at least one character that stays inside the text, a fault
   * only at a trailing lone quote, and brackets that follow the toggle.
   */
  predicate Sound(code: string, decide: Decider) {
    forall q: nat, inRange: bool {:trigger decide(q, inRange)} :: q < |code| ==>
      var r := decide(q, inRange);
      && (r.Ok? ==> 1 <= r.value.len && q + r.value.len <= |code|)
      && (r.Err? ==> code[q] == '\'' && q + 1 == |code| && r.error == LoneQuote)
      && (r.Ok? && (r.value.kind == RangeOpen || r.value.kind == RangeClose) ==>
            r.value.kind == (if inRange then RangeClose else RangeOpen))
  }

  /**
   * `each` from position `p` driven by `decide`: tokens until the end of the
   * text, or until the decision is a fault.
   */
  function LexWith(code: string, decide: Decider, p: nat, inRange: bool): (s: Stream)
    requires Sound(code, decide)
    decreases |code| - p
  {
    if p >= |code| then Stream([], None)
    else
      match decide(p, inRange)
      case Err(f) => Stream([], Some(f))
      case Ok(lx) =>
        var rest := LexWith(code, decide, p + lx.len, NextInRange(inRange, lx.kind));
        Stream([TokenAt(code, p, lx)] + rest.items, rest.fault)
  }

  /** A decision that is a lexeme puts its token in front of the stream after it. */
  lemma LexWithCons(code: string, decide: Decider, p: nat, inRange: bool)
    requires Sound(code, decide) && p < |code| && decide(p, inRange).Ok?
    ensures var lx := decide(p, inRange).value;
      var rest := LexWith(code, decide, p + lx.len, NextInRange(inRange, lx.kind));
      LexWith(code, decide, p, inRange) == Stream([TokenAt(code, p, lx)] + rest.items, rest.fault)
  {
  }

  /** The concatenated text of the tokens' raws. */
  function Texts(ts: seq<Token>): string {
    if ts == [] then [] else
      (match ts[0].raw case Text(s) => s case _ => []) + Texts(ts[1..])
  }

  lemma {:induction false} TextsAppend(a: seq<Token>, b: seq<Token>)
    ensures Texts(a + b) == Texts(a) + Texts(b)
  {
    if a == [] {
      assert a + b == b;
    } else {
      TextsAppend(a[1..], b);
      assert (a + b)[1..] == a[1..] + b;
    }
  }

  /** The text a stream accounts for: its raws, and the lone quote a fault stopped at. */
  function Consumed(s: Stream): string {
    Texts(s.items) + (if s.fault.Some? then "'" else "")
  }

  /** A token holding the text from `p` to `q`, in front of a stream accounting for the text from `q`, accounts for the text from `p`. */
  lemma ConsumedCons(code: string, p: nat, q: nat, t: Token, rest: Stream)
    requires p <= q <= |code| && t.raw == Text(code[p..q]) && Consumed(rest) == code[q..]
    ensures Consumed(Stream([t] + rest.items, rest.fault)) == code[p..]
  {
    var ts := [t] + rest.items;
    assert ts[0] == t && ts[1..] == rest.items;
    assert code[p..] == code[p..q] + code[q..];
  }

  /** Coverage for any sound decision: the stream accounts for the text from `p`. */
  lemma {:induction false} LexWithCovers(code: string, decide: Decider, p: nat, inRange: bool)
    requires p <= |code| && Sound(code, decide)
    ensures Consumed(LexWith(code, decide, p, inRange)) == code[p..]
    ensures LexWith(code, decide, p, inRange).fault.Some? ==> LexWith(code, decide, p, inRange).fault == Some(LoneQuote)
    decreases |code| - p
  {
    if p < |code| && decide(p, inRange).Ok? {
      var lx := decide(p, inRange).value;
      var q, next := p + lx.len, NextInRange(inRange, lx.kind);
      var rest := LexWith(code, decide, q, next);
      LexWithCovers(code, decide, q, next);
      LexWithCons(code, decide, p, inRange);
      assert LexWith(code, decide, p, inRange) == Stream([TokenAt(code, p, lx)] + rest.items, rest.fault);
      ConsumedCons(code, p, q, TokenAt(code, p, lx), rest);
    } else if p < |code| {
      assert LexWith(code, decide, p, inRange) == Stream([], Some(LoneQuote));
      assert code[p..] == "'";
    } else {
      assert LexWith(code, decide, p, inRange) == Stream([], None);
    }
  }

  /** A token that records where it starts, and whose raw is the non-empty text there. */
  predicate Located(code: string, t: Token) {
    && t.at.Some? && t.raw.Text? && |t.raw.s| > 0
    && t.at.value.start + |t.raw.s| <= |code|
    && code[t.at.value.start..t.at.value.start + |t.raw.s|] == t.raw.s
    && t.at.value == PosAt(code, t.at.value.start)
  }

  /** Where a located token ends. */
  function EndOf(t: Token): nat
    requires t.at.Some? && t.raw.Text?
  {
    t.at.value.start + |t.raw.s|
  }

  /**
   * The tokens tile the text from `p`: each is located, the first starts at
   * `p` and each starts where the previous one ended.
   */
  predicate Tiling(code: string, ts: seq<Token>, p: nat) {
    && (forall i :: 0 <= i < |ts| ==> Located(code, ts[i]))
    && (|ts| > 0 ==> ts[0].at.value.start == p)
    && (forall i :: 0 <= i < |ts| - 1 ==> EndOf(ts[i]) == ts[i + 1].at.value.start)
  }

  /** A located token in front of a tiling that starts where the token ends is a tiling from its start. */
  lemma TilingCons(code: string, t: Token, rest: seq<Token>)
    requires Located(code, t) && Tiling(code, rest, EndOf(t))
    ensures Tiling(code, [t] + rest, t.at.value.start)
  {
    var ts := [t] + rest;
    assert forall i :: 1 <= i < |ts| ==> ts[i] == rest[i - 1];
  }

  /** Tiling for any sound decision. */
  lemma {:induction false} LexWithTiles(code: string, decide: Decider, p: nat, inRange: bool)
    requires Sound(code, decide)
    ensures Tiling(code, LexWith(code, decide, p, inRange).items, p)
    decreases |code| - p
  {
    if p < |code| && decide(p, inRange).Ok? {
      var lx := decide(p, inRange).value;
      var q, next := p + lx.len, NextInRange(inRange, lx.kind);
      LexWithTiles(code, decide, q, next);
      LexWithCons(code, decide, p, inRange);
      TilingCons(code, TokenAt(code, p, lx), LexWith(code, decide, q, next).items);
    } else {
      assert LexWith(code, decide, p, inRange).items == [];
    }
  }

  /** The kinds of the range tokens in a token sequence, in order. */
  function RangeKinds(ts: seq<Token>): seq<Kind> {
    if ts == [] then []
    else (if ts[0].kind == RangeOpen || ts[0].kind == RangeClose then [ts[0].kind] else []) + RangeKinds(ts[1..])
  }

  /** `n` bracket kinds alternating, starting with close when `inRange` holds and with open otherwise. */
  function Alternating(inRange: bool, n: nat): seq<Kind>
    decreases n
  {
    if n == 0 then [] else [if inRange then RangeClose else RangeOpen] + Alternating(!inRange, n - 1)
  }

  /**
   * One more token in front keeps the range kinds alternating, when a
   * bracket token has the kind the toggle gives and flips the toggle.
   */
  lemma AlternatesCons(inRange: bool, t: Token, rest: seq<Token>)
    requires t.kind == RangeOpen || t.kind == RangeClose ==> t.kind == (if inRange then RangeClose else RangeOpen)
    requires var rk := RangeKinds(rest); rk == Alternating(NextInRange(inRange, t.kind), |rk|)
    ensures var ks := RangeKinds([t] + rest); ks == Alternating(inRange, |ks|)
  {
    assert ([t] + rest)[1..] == rest;
  }

  /** The step of the induction below: one decided lexeme in front of an alternating rest. */
  lemma AlternatesStep(code: string, decide: Decider, p: nat, inRange: bool)
    requires Sound(code, decide) && p < |code| && decide(p, inRange).Ok?
    requires var lx := decide(p, inRange).value;
      var ks := RangeKinds(LexWith(code, decide, p + lx.len, NextInRange(inRange, lx.kind)).items);
      ks == Alternating(NextInRange(inRange, lx.kind), |ks|)
    ensures var ks := RangeKinds(LexWith(code, decide, p, inRange).items);
      ks == Alternating(inRange, |ks|)
  {
    var lx := decide(p, inRange).value;
    var rest := LexWith(code, decide, p + lx.len, NextInRange(inRange, lx.kind));
    var t := TokenAt(code, p, lx);
    LexWithCons(code, decide, p, inRange);
    assert LexWith(code, decide, p, inRange).items == [t] + rest.items;
    AlternatesCons(inRange, t, rest.items);
  }

  /** Alternation for any sound decision. */
  lemma {:induction false} LexWithAlternates(code: string, decide: Decider, p: nat, inRange: bool)
    requires Sound(code, decide)
    ensures var ks := RangeKinds(LexWith(code, decide, p, inRange).items);
      ks == Alternating(inRange, |ks|)
    decreases |code| - p
  {
    if p < |code| && decide(p, inRange).Ok? {
      var lx := decide(p, inRange).value;
      LexWithAlternates(code, decide, p + lx.len, NextInRange(inRange, lx.kind));
      AlternatesStep(code, decide, p, inRange);
    } else {
      assert LexWith(code, decide, p, inRange).items == [];
    }
  }
}
