/**
 * Tokens: the record the lexer produces and the shunting-yard engine consumes.
 * `raw` is the matched source text, except for the engine's synthetic `atom`
 * and `call_func` tokens, which carry an arity (or nil) in the same field.
 */
module Tokens {
  import opened Wrappers
  import opened Faults

  datatype Kind =
    | Number | Atom | Word | Infinity | OpQuote | Str | Character | PatternString
    | Operator | UnaryOperator
    | ParenOpen | ParenClose | RangeOpen | RangeClose | AssignRange
    | BlockOpen | BlockClose | BlockSplit | Comma | Separator
    | Blank | Unknown | CallFunc | MakeBlock

  /** The `raw` field: source text, an integer arity, or nil (an arity popped from an empty stack). */
  datatype Raw = Text(s: string) | Count(n: nat) | NilCount

  /** Where a lexed token began: character offset, 1-based line and column. */
  datatype Pos = Pos(start: nat, line: nat, col: nat)

  datatype Token = Token(raw: Raw, kind: Kind, at: Option<Pos>) {
    /** `data?`: a token that is a value on its own. */
    predicate IsData() {
      kind in {Number, Atom, Word, Infinity, OpQuote, Str, Character}
    }

    /** `blank?` */
    predicate IsBlank() {
      kind == Blank
    }

    /** `data_like?`: a value, or a closing delimiter that ends one. */
    predicate IsDataLike() {
      IsData() || kind in {ParenClose, RangeClose, BlockClose}
    }

    /** `operator?` */
    predicate IsOperator() {
      kind == Operator || kind == UnaryOperator
    }

    /** `significant?`: everything but blanks. */
    predicate IsSignificant() {
      kind != Blank
    }
  }

  /** `TidyToken.atom`: a synthetic data token carrying a count and no position. */
  function MakeAtom(count: Option<nat>): (t: Token)
    ensures t.IsData() && t.kind == Atom && t.at == None
    ensures t.raw == (if count.Some? then Count(count.value) else NilCount)
  {
    Token(if count.Some? then Count(count.value) else NilCount, Atom, None)
  }

  /** How the four kind predicates relate, for every token. */
  lemma KindPredicates(t: Token)
    ensures t.IsData() <==> t.kind in {Number, Atom, Word, Infinity, OpQuote, Str, Character}
    ensures t.IsDataLike() <==> t.IsData() || t.kind == ParenClose || t.kind == RangeClose || t.kind == BlockClose
    ensures t.IsSignificant() <==> !t.IsBlank()
    ensures t.IsData() ==> t.IsDataLike() && !t.IsOperator()
    ensures t.IsOperator() ==> !t.IsDataLike()
    ensures t.kind in {PatternString, ParenOpen, RangeOpen, BlockOpen, Comma} ==> !t.IsDataLike() && !t.IsOperator()
  {
  }

  /**
   * A pull pipeline stage run to completion: the items produced before the
   * stage raised, and what it raised (None when it finished normally).
   */
  datatype Stream = Stream(items: seq<Token>, fault: Option<Fault>)
}
