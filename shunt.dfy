/**
 * The shunting-yard engine (`shunt`): reads the token stream and emits it in
 * postfix order. Its state is three stacks (operators, call arities, and
 * whether each open parenthesis is a call) and the last significant token.
 * A token is emitted the moment `shunt` pushes it to its output queue, so a
 * stream that fails carries every token emitted before the failure.
 */
module Shunting {
  import opened Wrappers
  import opened Faults
  import opened Tokens
  import opened Seqs

  // ---------------------------------------------------------------------
  // The engine's precedence table

  /** `$PRECEDENCE`: the engine's own table, which has neither `//` nor `@`. */
  const EnginePrecedence: map<string, int> := map["+" := 5, "-" := 5, "*" := 10, "/" := 10]

  /** `get_precedence(token.raw)`: nil for a lexeme missing from the table and for an arity raw. */
  function ShuntPrecedence(raw: Raw): Option<int> {
    if raw.Text? && raw.s in EnginePrecedence then Some(EnginePrecedence[raw.s]) else None
  }

  /**
   * The engine knows the additive and multiplicative lexemes, ranks the
   * second above the first, and knows neither `//` nor `@`.
   */
  lemma EngineTable()
    ensures ShuntPrecedence(Text("+")) == ShuntPrecedence(Text("-")) == Some(5)
    ensures ShuntPrecedence(Text("*")) == ShuntPrecedence(Text("/")) == Some(10)
    ensures ShuntPrecedence(Text("//")).None? && ShuntPrecedence(Text("@")).None?
    ensures forall n: nat :: ShuntPrecedence(Count(n)).None?
  {
  }

  // ---------------------------------------------------------------------
  // `flush`

  /** `initials`: the token kinds `flush` stops at. */
  predicate IsMarker(t: Token) {
    t.kind == RangeOpen || t.kind == ParenOpen
  }

  /**
   * `flush(operator_stack, output_queue, initials)`: the stack (top last)
   * and output after popping and emitting every token above the topmost
   * marker; the marker itself stays.
   */
  function Flushed(ops: seq<Token>, out: seq<Token>): (seq<Token>, seq<Token>)
    decreases |ops|
  {
    if ops == [] || IsMarker(ops[|ops| - 1]) then (ops, out)
    else Flushed(ops[..|ops| - 1], out + [ops[|ops| - 1]])
  }

  /** Emitting the top, then the rest of the popped part top first, emits the whole popped part top first. */
  lemma PopTopFirst(ops: seq<Token>, out: seq<Token>, k: nat)
    requires k < |ops|
    ensures (out + [ops[|ops| - 1]]) + Reverse(ops[..|ops| - 1][k..]) == out + Reverse(ops[k..])
  {
    var top, below := ops[|ops| - 1], ops[..|ops| - 1];
    assert ops[k..] == below[k..] + [top];
    ReverseAppend(below[k..], [top]);
  }

  /** What `flush` emits: it keeps a prefix of the stack and emits the rest top first. */
  lemma {:induction false} FlushedPops(ops: seq<Token>, out: seq<Token>)
    ensures var r := Flushed(ops, out);
      && |r.0| <= |ops| && r.0 == ops[..|r.0|]
      && r.1 == out + Reverse(ops[|r.0|..])
    decreases |ops|
  {
    if ops != [] && !IsMarker(ops[|ops| - 1]) {
      var top, below := ops[|ops| - 1], ops[..|ops| - 1];
      assert Flushed(ops, out) == Flushed(below, out + [top]);
      FlushedPops(below, out + [top]);
      PopTopFirst(ops, out, |Flushed(below, out + [top]).0|);
    }
  }

  /** `flush` pops no marker. */
  lemma {:induction false} FlushedPopsNoMarker(ops: seq<Token>, out: seq<Token>)
    ensures var r := Flushed(ops, out);
      |r.0| <= |ops| && forall i :: |r.0| <= i < |ops| ==> !IsMarker(ops[i])
    decreases |ops|
  {
    if ops != [] && !IsMarker(ops[|ops| - 1]) {
      var top, below := ops[|ops| - 1], ops[..|ops| - 1];
      assert Flushed(ops, out) == Flushed(below, out + [top]);
      FlushedPopsNoMarker(below, out + [top]);
      assert forall i :: 0 <= i < |below| ==> below[i] == ops[i];
    }
  }

  /** `flush` leaves a marker on top, or an empty stack. */
  lemma {:induction false} FlushedStops(ops: seq<Token>, out: seq<Token>)
    ensures var r := Flushed(ops, out); r.0 == [] || IsMarker(r.0[|r.0| - 1])
    decreases |ops|
  {
    if ops != [] && !IsMarker(ops[|ops| - 1]) {
      var top, below := ops[|ops| - 1], ops[..|ops| - 1];
      assert Flushed(ops, out) == Flushed(below, out + [top]);
      FlushedStops(below, out + [top]);
    }
  }

  /** The `until` loop of `flush`. */
  method Flush(ops: seq<Token>, out: seq<Token>) returns (ops': seq<Token>, out': seq<Token>)
    ensures (ops', out') == Flushed(ops, out)
  {
    ops', out' := ops, out;
    while ops' != [] && !IsMarker(ops'[|ops'| - 1])
      invariant Flushed(ops', out') == Flushed(ops, out)
      decreases |ops'|
    {
      out' := out' + [ops'[|ops'| - 1]];
      ops' := ops'[..|ops'| - 1];
    }
  }

  // ---------------------------------------------------------------------
  // The precedence loop of a binary operator

  /** What the popping loop leaves: the stack, the output, and the comparison that raised, if any. */
  datatype Popped = Popped(ops: seq<Token>, out: seq<Token>, fault: Option<Fault>)

  /** A stacked token the loop pops for an operator of precedence `prec`: an operator ranked at least as high. */
  predicate Outranks(t: Token, prec: Option<int>) {
    t.IsOperator() && prec.Some? && ShuntPrecedence(t.raw).Some? && ShuntPrecedence(t.raw).value >= prec.value
  }

  /**
   * The `loop` of a binary operator of precedence `prec`: pops and emits
   * stacked operators while the top one ranks at least as high (`>=`, so
   * equal ranks associate to the left). Comparing with a missing precedence
   * raises.
   */
  function PoppedHigher(ops: seq<Token>, out: seq<Token>, prec: Option<int>): Popped
    decreases |ops|
  {
    if ops == [] then Popped(ops, out, None)
    else
      var top := ops[|ops| - 1];
      var tp := ShuntPrecedence(top.raw);
      if !top.IsOperator() then Popped(ops, out, None)
      else if tp.None? || prec.None? then Popped(ops, out, Some(MissingPrecedence))
      else if tp.value < prec.value then Popped(ops, out, None)
      else PoppedHigher(ops[..|ops| - 1], out + [top], prec)
  }

  /** What the loop emits: it keeps a prefix of the stack and emits the rest top first. */
  lemma {:induction false} PoppedHigherPops(ops: seq<Token>, out: seq<Token>, prec: Option<int>)
    ensures var r := PoppedHigher(ops, out, prec);
      && |r.ops| <= |ops| && r.ops == ops[..|r.ops|]
      && r.out == out + Reverse(ops[|r.ops|..])
    decreases |ops|
  {
    if ops != [] && Outranks(ops[|ops| - 1], prec) {
      var top, below := ops[|ops| - 1], ops[..|ops| - 1];
      assert PoppedHigher(ops, out, prec) == PoppedHigher(below, out + [top], prec);
      PoppedHigherPops(below, out + [top], prec);
      PopTopFirst(ops, out, |PoppedHigher(below, out + [top], prec).ops|);
    }
  }

  /** Every token the loop pops is an operator that outranks the incoming one (`>=`, so equal ranks associate to the left). */
  lemma {:induction false} PoppedHigherOutrank(ops: seq<Token>, out: seq<Token>, prec: Option<int>)
    ensures var r := PoppedHigher(ops, out, prec);
      |r.ops| <= |ops| && forall i :: |r.ops| <= i < |ops| ==> Outranks(ops[i], prec)
    decreases |ops|
  {
    if ops != [] && Outranks(ops[|ops| - 1], prec) {
      var top, below := ops[|ops| - 1], ops[..|ops| - 1];
      assert PoppedHigher(ops, out, prec) == PoppedHigher(below, out + [top], prec);
      PoppedHigherOutrank(below, out + [top], prec);
      assert forall i :: 0 <= i < |below| ==> below[i] == ops[i];
    }
  }

  /**
   * Where the loop stops: without a fault, at the bottom, at a non-operator,
   * or at an operator of strictly lower precedence; with a fault, at an
   * operator when it or the incoming one has no precedence.
   */
  lemma {:induction false} PoppedHigherStops(ops: seq<Token>, out: seq<Token>, prec: Option<int>)
    ensures var r := PoppedHigher(ops, out, prec);
      && (r.fault.None? ==>
            || r.ops == [] || !r.ops[|r.ops| - 1].IsOperator()
            || (prec.Some? && ShuntPrecedence(r.ops[|r.ops| - 1].raw).Some?
                && ShuntPrecedence(r.ops[|r.ops| - 1].raw).value < prec.value))
      && (r.fault.Some? ==>
            && r.fault == Some(MissingPrecedence) && r.ops != [] && r.ops[|r.ops| - 1].IsOperator()
            && (ShuntPrecedence(r.ops[|r.ops| - 1].raw).None? || prec.None?))
    decreases |ops|
  {
    if ops != [] && Outranks(ops[|ops| - 1], prec) {
      var top, below := ops[|ops| - 1], ops[..|ops| - 1];
      assert PoppedHigher(ops, out, prec) == PoppedHigher(below, out + [top], prec);
      PoppedHigherStops(below, out + [top], prec);
    }
  }

  /** The `loop` itself. */
  method PopHigher(ops: seq<Token>, out: seq<Token>, prec: Option<int>) returns (r: Popped)
    ensures r == PoppedHigher(ops, out, prec)
  {
    var stack, queue := ops, out;
    while true
      invariant PoppedHigher(stack, queue, prec) == PoppedHigher(ops, out, prec)
      decreases |stack|
    {
      if stack == [] {
        return Popped(stack, queue, None);
      }
      var top := stack[|stack| - 1];
      if !top.IsOperator() {
        return Popped(stack, queue, None);
      }
      var tp := ShuntPrecedence(top.raw);
      if tp.None? || prec.None? {
        return Popped(stack, queue, Some(MissingPrecedence));
      }
      if tp.value < prec.value {
        return Popped(stack, queue, None);
      }
      queue := queue + [top];
      stack := stack[..|stack| - 1];
    }
  }

  // ---------------------------------------------------------------------
  // One token

  /** `operator_stack`, `arities`, `paren_mask_stack`, `previous_token`, and what was emitted so far. */
  datatype State = State(ops: seq<Token>, arities: seq<nat>, calls: seq<bool>, prev: Option<Token>, out: seq<Token>)

  const Initial: State := State([], [], [], None, [])

  /** The state after one token, and what it raised. */
  datatype Next = Next(st: State, fault: Option<Fault>)

  /** `arities.pop`: the stack without its top, and the top (nil on an empty stack). */
  function PopArity(arities: seq<nat>): (r: (seq<nat>, Option<nat>))
    ensures arities == [] ==> r == ([], None)
    ensures arities != [] ==> r.1.Some? && arities == r.0 + [r.1.value]
  {
    if arities == [] then ([], None) else (arities[..|arities| - 1], Some(arities[|arities| - 1]))
  }

  /** `range.raw += token.raw`: strings concatenate and integers add; anything else raises. */
  function JoinRaw(a: Raw, b: Raw): (r: Result<Raw, Fault>)
    ensures r.Ok? <==> (a.Text? && b.Text?) || (a.Count? && b.Count?)
    ensures a.Text? && b.Text? ==> r == Ok(Text(a.s + b.s))
    ensures r.Err? ==> r.error == RawTypeMismatch
  {
    match (a, b)
    case (Text(x), Text(y)) => Ok(Text(x + y))
    case (Count(m), Count(n)) => Ok(Count(m + n))
    case _ => Err(RawTypeMismatch)
  }

  /** A data token: after another data token, first flush to the nearest open; then emit it. */
  function DataStep(s: State, t: Token): State {
    var f := if s.prev.Some? && s.prev.value.IsData() then Flushed(s.ops, s.out) else (s.ops, s.out);
    s.(ops := f.0, out := f.1 + [t], prev := Some(t))
  }

  /** `(`: a call when the previous token is data-like, which also opens an arity of 1. */
  function ParenOpenStep(s: State, t: Token): Next {
    if s.prev.None? then Next(s, Some(NoPreviousToken))
    else
      var call := s.prev.value.IsDataLike();
      Next(s.(ops := s.ops + [t], calls := s.calls + [call],
              arities := if call then s.arities + [1] else s.arities, prev := Some(t)), None)
  }

  /** `TidyToken.new(arities.pop, :call_func)`: the call marker, carrying the argument count (nil when none was open). */
  function CallToken(arity: Option<nat>): (t: Token)
    ensures t.kind == CallFunc && !t.IsData() && !t.IsOperator()
  {
    Token(if arity.Some? then Count(arity.value) else NilCount, CallFunc, None)
  }

  /**
   * `)`: flush to the nearest open, emit `call_func` with the popped arity
   * when the parenthesis was a call, then pop the open.
   */
  function ParenCloseStep(s: State, t: Token): State {
    var call := s.calls != [] && s.calls[|s.calls| - 1];
    var f := Flushed(s.ops, s.out);
    s.(ops := if f.0 == [] then [] else f.0[..|f.0| - 1],
       arities := if call then PopArity(s.arities).0 else s.arities,
       calls := if s.calls == [] then [] else s.calls[..|s.calls| - 1],
       out := if call then f.1 + [CallToken(PopArity(s.arities).1)] else f.1,
       prev := Some(t))
  }

  /** A range open: stacked like a parenthesis, with an arity of 1. */
  function RangeOpenStep(s: State, t: Token): State {
    s.(ops := s.ops + [t], arities := s.arities + [1], prev := Some(t))
  }

  /**
   * A range close: flush, pop the open, emit an atom holding the popped
   * arity, then the open turned into `assign_range` with both raws joined.
   */
  function RangeCloseStep(s: State, t: Token): Next {
    var f := Flushed(s.ops, s.out);
    if f.0 == [] then Next(s.(ops := f.0, out := f.1), Some(NoRangeOpen))
    else
      var open := f.0[|f.0| - 1];
      var joined := JoinRaw(open.raw, t.raw);
      if joined.Err? then Next(s.(ops := f.0[..|f.0| - 1], out := f.1), Some(joined.error))
      else
        Next(s.(ops := f.0[..|f.0| - 1], arities := PopArity(s.arities).0,
                out := f.1 + [MakeAtom(PopArity(s.arities).1), open.(raw := joined.value, kind := AssignRange)],
                prev := Some(t)), None)
  }

  /** `,`: one more argument for the innermost arity, then flush to the nearest open. */
  function CommaStep(s: State, t: Token): Next {
    if s.arities == [] then Next(s, Some(NoArity))
    else
      var n := |s.arities|;
      var f := Flushed(s.ops, s.out);
      Next(s.(arities := s.arities[..n - 1] + [s.arities[n - 1] + 1], ops := f.0, out := f.1, prev := Some(t)), None)
  }

  /** Where an operator is unary: at the start, or right after another operator. */
  predicate UnaryPosition(s: State) {
    s.prev.None? || s.prev.value.IsOperator()
  }

  /**
   * An operator: unary where no operand precedes it, pushed without popping;
   * otherwise binary, pushed after the precedence loop.
   */
  function OperatorStep(s: State, t: Token): Next {
    if UnaryPosition(s) then
      var u := t.(kind := UnaryOperator);
      Next(s.(ops := s.ops + [u], prev := Some(u)), None)
    else
      var p := PoppedHigher(s.ops, s.out, ShuntPrecedence(t.raw));
      if p.fault.Some? then Next(s.(ops := p.ops, out := p.out), p.fault)
      else Next(s.(ops := p.ops + [t], out := p.out, prev := Some(t)), None)
  }

  /**
   * The body of `tokenize(code) { |token| ... }`. Blanks change nothing;
   * other unhandled kinds (blocks, separators, unknown characters) are only
   * reported and still become the previous token.
   */
  function Step(s: State, t: Token): Next {
    if t.IsData() then Next(DataStep(s, t), None)
    else if t.kind == ParenOpen then ParenOpenStep(s, t)
    else if t.kind == ParenClose then Next(ParenCloseStep(s, t), None)
    else if t.kind == RangeOpen then Next(RangeOpenStep(s, t), None)
    else if t.kind == RangeClose then RangeCloseStep(s, t)
    else if t.kind == Comma then CommaStep(s, t)
    else if t.IsOperator() then OperatorStep(s, t)
    else if t.IsBlank() then Next(s, None)
    else Next(s.(prev := Some(t)), None)
  }

  /** The engine over the tokens `ts`, stopping at the first token that raises. */
  function Run(s: State, ts: seq<Token>): Next
    decreases |ts|
  {
    if ts == [] then Next(s, None)
    else
      var n := Step(s, ts[0]);
      if n.fault.Some? then n else Run(n.st, ts[1..])
  }

  /**
   * `shunt(code)` over the token stream: every token emitted, and what
   * raised. The closing `reverse_each` emits what is left on the operator
   * stack, top first, only when neither the lexer nor the engine raised.
   */
  function Shunted(input: Stream): Stream {
    var n := Run(Initial, input.items);
    if n.fault.Some? then Stream(n.st.out, n.fault)
    else if input.fault.Some? then Stream(n.st.out, input.fault)
    else Stream(n.st.out + Reverse(n.st.ops), None)
  }

  // ---------------------------------------------------------------------
  // The engine as the source runs it

  /** One pass of the block given to `tokenize`. */
  method Feed(s: State, t: Token) returns (n: Next)
    ensures n == Step(s, t)
  {
    var ops, arities, calls, prev, out := s.ops, s.arities, s.calls, s.prev, s.out;
    if t.IsData() {
      if prev.Some? && prev.value.IsData() {
        ops, out := Flush(ops, out);
      }
      out := out + [t];
      prev := Some(t);
    } else if t.kind == ParenOpen {
      if prev.None? {
        return Next(s, Some(NoPreviousToken));
      }
      var call := prev.value.IsDataLike();
      ops := ops + [t];
      calls := calls + [call];
      if call {
        arities := arities + [1];
      }
      prev := Some(t);
    } else if t.kind == ParenClose {
      n := FeedParenClose(s, t);
      return;
    } else if t.kind == RangeOpen {
      ops := ops + [t];
      arities := arities + [1];
      prev := Some(t);
    } else if t.kind == RangeClose {
      n := FeedRangeClose(s, t);
      return;
    } else if t.kind == Comma {
      if arities == [] {
        return Next(s, Some(NoArity));
      }
      arities := arities[..|arities| - 1] + [arities[|arities| - 1] + 1];
      ops, out := Flush(ops, out);
      prev := Some(t);
    } else if t.IsOperator() {
      n := FeedOperator(s, t);
      return;
    } else if !t.IsBlank() {
      prev := Some(t);
    }
    n := Next(State(ops, arities, calls, prev, out), None);
  }

  /** The `:paren_close` branch. */
  method FeedParenClose(s: State, t: Token) returns (n: Next)
    requires t.kind == ParenClose
    ensures n == Next(ParenCloseStep(s, t), None)
  {
    var arities, calls := s.arities, s.calls;
    var call := false;
    if calls != [] {
      call := calls[|calls| - 1];
      calls := calls[..|calls| - 1];
    }
    var ops, out := Flush(s.ops, s.out);
    if call {
      var arity := None;
      if arities != [] {
        arity := Some(arities[|arities| - 1]);
        arities := arities[..|arities| - 1];
      }
      out := out + [CallToken(arity)];
    }
    if ops != [] {
      ops := ops[..|ops| - 1];
    }
    n := Next(State(ops, arities, calls, Some(t), out), None);
  }

  /** The `:range_close` branch. */
  method FeedRangeClose(s: State, t: Token) returns (n: Next)
    requires t.kind == RangeClose
    ensures n == RangeCloseStep(s, t)
  {
    var ops, out := Flush(s.ops, s.out);
    if ops == [] {
      return Next(s.(ops := ops, out := out), Some(NoRangeOpen));
    }
    var range := ops[|ops| - 1];
    ops := ops[..|ops| - 1];
    var raw := JoinRaw(range.raw, t.raw);
    if raw.Err? {
      return Next(s.(ops := ops, out := out), Some(raw.error));
    }
    var arities := s.arities;
    var count := None;
    if arities != [] {
      count := Some(arities[|arities| - 1]);
      arities := arities[..|arities| - 1];
    }
    out := out + [MakeAtom(count), range.(raw := raw.value, kind := AssignRange)];
    n := Next(s.(ops := ops, arities := arities, out := out, prev := Some(t)), None);
  }

  /** The `operator?` branch. */
  method FeedOperator(s: State, t: Token) returns (n: Next)
    requires t.IsOperator()
    ensures n == OperatorStep(s, t)
  {
    if s.prev.None? || s.prev.value.IsOperator() {
      var u := t.(kind := UnaryOperator);
      return Next(s.(ops := s.ops + [u], prev := Some(u)), None);
    }
    var p := PopHigher(s.ops, s.out, ShuntPrecedence(t.raw));
    if p.fault.Some? {
      return Next(s.(ops := p.ops, out := p.out), p.fault);
    }
    n := Next(s.(ops := p.ops + [t], out := p.out, prev := Some(t)), None);
  }

  /** The closing `operator_stack.reverse_each`: emits the stack top first. */
  method EmitRest(ops: seq<Token>, out: seq<Token>) returns (out': seq<Token>)
    ensures out' == out + Reverse(ops)
  {
    out' := out;
    var i := |ops|;
    while i > 0
      invariant 0 <= i <= |ops|
      invariant out' == out + Reverse(ops[i..])
    {
      i := i - 1;
      ReverseAppend([ops[i]], ops[i + 1..]);
      assert ops[i..] == [ops[i]] + ops[i + 1..];
      out' := out' + [ops[i]];
    }
    assert ops[0..] == ops;
  }

  /** `shunt(code)` run to the end over the token stream. */
  method Shunt(input: Stream) returns (output: Stream)
    ensures output == Shunted(input)
  {
    var s := Initial;
    var i := 0;
    while i < |input.items|
      invariant 0 <= i <= |input.items|
      invariant Run(Initial, input.items) == Run(s, input.items[i..])
      decreases |input.items| - i
    {
      var n := Feed(s, input.items[i]);
      assert input.items[i..][0] == input.items[i] && input.items[i..][1..] == input.items[i + 1..];
      if n.fault.Some? {
        return Stream(n.st.out, n.fault);
      }
      s := n.st;
      i := i + 1;
    }
    if input.fault.Some? {
      return Stream(s.out, input.fault);
    }
    var out := EmitRest(s.ops, s.out);
    output := Stream(out, None);
  }
}

/** What the engine guarantees of every token and of whole runs. */
module ShuntingFacts {
  import opened Wrappers
  import opened Faults
  import opened Tokens
  import opened Seqs
  import opened Shunting

  // ---------------------------------------------------------------------
  // One token at a time

  /**
   * An operator is unary exactly where no operand precedes it: there it is
   * pushed as `unary_operator` without popping or emitting anything;
   * elsewhere, when nothing raises, it is pushed as the binary operator it is.
   */
  lemma UnaryExactlyWithoutOperand(s: State, t: Token)
    requires t.kind == Operator
    ensures var u := t.(kind := UnaryOperator);
      UnaryPosition(s) ==> Step(s, t) == Next(s.(ops := s.ops + [u], prev := Some(u)), None)
    ensures var n := Step(s, t);
      !UnaryPosition(s) && n.fault.None? ==> n.st.ops != [] && n.st.ops[|n.st.ops| - 1] == t
  {
  }

  /**
   * A binary operator first pops and emits, top first, the stacked
   * operators that rank at least as high, then is pushed.
   */
  lemma BinaryPopsHigher(s: State, t: Token)
    requires t.kind == Operator && !UnaryPosition(s)
    ensures var n := Step(s, t);
      var k := |PoppedHigher(s.ops, s.out, ShuntPrecedence(t.raw)).ops|;
      && k <= |s.ops|
      && (forall i :: k <= i < |s.ops| ==> Outranks(s.ops[i], ShuntPrecedence(t.raw)))
      && n.st.out == s.out + Reverse(s.ops[k..])
      && (n.fault.None? ==> n.st.ops == s.ops[..k] + [t])
  {
    PoppedHigherPops(s.ops, s.out, ShuntPrecedence(t.raw));
    PoppedHigherOutrank(s.ops, s.out, ShuntPrecedence(t.raw));
  }

  /** A binary operator raises exactly when it or an operator it meets has no precedence in the engine's table. */
  lemma BinaryRaisesOnMissingPrecedence(s: State, t: Token)
    requires t.kind == Operator && !UnaryPosition(s)
    ensures var n := Step(s, t);
      var r := PoppedHigher(s.ops, s.out, ShuntPrecedence(t.raw));
      n.fault.Some? <==>
        r.ops != [] && r.ops[|r.ops| - 1].IsOperator()
        && (ShuntPrecedence(r.ops[|r.ops| - 1].raw).None? || ShuntPrecedence(t.raw).None?)
    ensures Step(s, t).fault.Some? ==> Step(s, t).fault == Some(MissingPrecedence)
  {
    PoppedHigherStops(s.ops, s.out, ShuntPrecedence(t.raw));
  }

  /**
   * A data token right after another one ends the expression so far: every
   * token above the nearest open is emitted, top first, before it.
   */
  lemma DataAfterDataFlushes(s: State, t: Token)
    requires t.IsData() && s.prev.Some? && s.prev.value.IsData()
    ensures var n := Step(s, t);
      var k := |n.st.ops|;
      && n.fault.None? && k <= |s.ops| && n.st.ops == s.ops[..k]
      && n.st.out == s.out + Reverse(s.ops[k..]) + [t]
      && (forall i :: k <= i < |s.ops| ==> !IsMarker(s.ops[i]))
      && (k == 0 || IsMarker(s.ops[k - 1]))
  {
    FlushedPops(s.ops, s.out);
    FlushedPopsNoMarker(s.ops, s.out);
    FlushedStops(s.ops, s.out);
  }

  /** Otherwise a data token is emitted at once and the stacks stay as they are. */
  lemma DataEmittedAtOnce(s: State, t: Token)
    requires t.IsData() && !(s.prev.Some? && s.prev.value.IsData())
    ensures Step(s, t) == Next(s.(out := s.out + [t], prev := Some(t)), None)
  {
  }

  /**
   * `(` raises at the start of the input; otherwise it is stacked, and it
   * opens a call with one argument exactly when the token before it is
   * data-like.
   */
  lemma ParenOpenRecordsCall(s: State, t: Token)
    requires t.kind == ParenOpen
    ensures s.prev.None? <==> Step(s, t).fault.Some?
    ensures s.prev.None? ==> Step(s, t) == Next(s, Some(NoPreviousToken))
    ensures var n := Step(s, t); s.prev.Some? ==>
      && n.st.ops == s.ops + [t]
      && n.st.calls == s.calls + [s.prev.value.IsDataLike()]
      && n.st.arities == (if s.prev.value.IsDataLike() then s.arities + [1] else s.arities)
      && n.st.out == s.out
  {
  }

  /** `,` raises outside any call or range; otherwise it counts one more argument and flushes to the nearest open. */
  lemma CommaCountsArgument(s: State, t: Token)
    requires t.kind == Comma
    ensures s.arities == [] <==> Step(s, t).fault.Some?
    ensures var n := Step(s, t); s.arities != [] ==>
      && |n.st.arities| == |s.arities|
      && n.st.arities[..|s.arities| - 1] == s.arities[..|s.arities| - 1]
      && n.st.arities[|s.arities| - 1] == s.arities[|s.arities| - 1] + 1
      && (n.st.ops, n.st.out) == Flushed(s.ops, s.out)
  {
  }

  /**
   * `)` closing a call flushes to the open, emits `call_func` carrying the
   * call's argument count, and pops the open and the count.
   */
  lemma CallCloseEmitsArity(s: State, t: Token)
    requires t.kind == ParenClose && s.calls != [] && s.calls[|s.calls| - 1] && s.arities != []
    ensures var n := Step(s, t);
      var f := Flushed(s.ops, s.out);
      && n.fault.None?
      && n.st.out == f.1 + [Token(Count(s.arities[|s.arities| - 1]), CallFunc, None)]
      && n.st.arities == s.arities[..|s.arities| - 1]
      && n.st.calls == s.calls[..|s.calls| - 1]
      && n.st.ops == (if f.0 == [] then [] else f.0[..|f.0| - 1])
  {
  }

  /** `)` closing a plain parenthesis emits only what the flush emits. */
  lemma GroupCloseEmitsNothingElse(s: State, t: Token)
    requires t.kind == ParenClose && !(s.calls != [] && s.calls[|s.calls| - 1])
    ensures var n := Step(s, t);
      && n.fault.None? && n.st.out == Flushed(s.ops, s.out).1 && n.st.arities == s.arities
  {
  }

  /**
   * A range close flushes, then raises without an open range below; with
   * one it emits an atom holding the element count and then the open
   * turned into `assign_range`, whose raw is both brackets' text joined.
   */
  lemma RangeCloseEmitsCountThenRange(s: State, t: Token)
    requires t.kind == RangeClose && t.raw.Text?
    ensures var n := Step(s, t);
      var f := Flushed(s.ops, s.out);
      && (f.0 == [] ==> n.fault == Some(NoRangeOpen) && n.st.out == f.1)
      && (f.0 != [] && f.0[|f.0| - 1].raw.Text? && s.arities != [] ==>
            var open := f.0[|f.0| - 1];
            && n.fault.None?
            && n.st.out == f.1 + [MakeAtom(Some(s.arities[|s.arities| - 1])),
                                  Token(Text(open.raw.s + t.raw.s), AssignRange, open.at)]
            && n.st.ops == f.0[..|f.0| - 1]
            && n.st.arities == s.arities[..|s.arities| - 1])
  {
  }

  /** Blanks do not touch the state. */
  lemma BlankIgnored(s: State, t: Token)
    requires t.IsBlank()
    ensures Step(s, t) == Next(s, None)
  {
  }

  // ---------------------------------------------------------------------
  // Operands survive in order

  /** A token the source wrote as a value: data with source text (not an engine-made count). */
  predicate IsOperand(t: Token) {
    t.IsData() && t.raw.Text?
  }

  /** The operands of a token sequence, in order. */
  function Operands(ts: seq<Token>): (r: seq<Token>)
    ensures |r| <= |ts|
  {
    if ts == [] then [] else (if IsOperand(ts[0]) then [ts[0]] else []) + Operands(ts[1..])
  }

  lemma {:induction false} OperandsAppend(a: seq<Token>, b: seq<Token>)
    ensures Operands(a + b) == Operands(a) + Operands(b)
  {
    if a != [] {
      assert (a + b)[1..] == a[1..] + b;
      OperandsAppend(a[1..], b);
    } else {
      assert a + b == b;
    }
  }

  predicate NoOperands(ts: seq<Token>) {
    forall i :: 0 <= i < |ts| ==> !IsOperand(ts[i])
  }

  lemma {:induction false} NoOperandsNone(ts: seq<Token>)
    requires NoOperands(ts)
    ensures Operands(ts) == []
  {
    if ts != [] {
      NoOperandsNone(ts[1..]);
    }
  }

  /** Emitting tokens taken from an operand-free stack, in any order, adds no operand. */
  lemma EmitStacked(out: seq<Token>, ops: seq<Token>, k: nat)
    requires NoOperands(ops) && k <= |ops|
    ensures Operands(out + Reverse(ops[k..])) == Operands(out)
    ensures NoOperands(ops[..k])
  {
    var r := Reverse(ops[k..]);
    assert NoOperands(r);
    NoOperandsNone(r);
    OperandsAppend(out, r);
  }

  /** A token that is not an operand, emitted, adds no operand. */
  lemma EmitOther(out: seq<Token>, xs: seq<Token>)
    requires NoOperands(xs)
    ensures Operands(out + xs) == Operands(out)
  {
    NoOperandsNone(xs);
    OperandsAppend(out, xs);
  }

  lemma FlushKeepsOperands(ops: seq<Token>, out: seq<Token>)
    requires NoOperands(ops)
    ensures var f := Flushed(ops, out); NoOperands(f.0) && Operands(f.1) == Operands(out)
  {
    FlushedPops(ops, out);
    EmitStacked(out, ops, |Flushed(ops, out).0|);
  }

  lemma PopKeepsOperands(ops: seq<Token>, out: seq<Token>, prec: Option<int>)
    requires NoOperands(ops)
    ensures var r := PoppedHigher(ops, out, prec); NoOperands(r.ops) && Operands(r.out) == Operands(out)
  {
    PoppedHigherPops(ops, out, prec);
    EmitStacked(out, ops, |PoppedHigher(ops, out, prec).ops|);
  }

  /** The operands emitted by one step. */
  function Emitted(t: Token): seq<Token> {
    if IsOperand(t) then [t] else []
  }

  /** What one step must do with operands: keep them off the stack and emit exactly the token if it is one. */
  predicate KeepsOperands(s: State, t: Token, n: Next) {
    && NoOperands(n.st.ops)
    && Operands(n.st.out) == Operands(s.out) + Emitted(t)
    && (IsOperand(t) ==> n.fault.None?)
  }

  lemma DataKeepsOperands(s: State, t: Token)
    requires NoOperands(s.ops) && t.IsData()
    ensures KeepsOperands(s, t, Next(DataStep(s, t), None))
  {
    var f := if s.prev.Some? && s.prev.value.IsData() then Flushed(s.ops, s.out) else (s.ops, s.out);
    FlushKeepsOperands(s.ops, s.out);
    OperandsAppend(f.1, [t]);
    assert Operands([t]) == Emitted(t);
  }

  lemma ParenCloseKeepsOperands(s: State, t: Token)
    requires NoOperands(s.ops) && t.kind == ParenClose
    ensures KeepsOperands(s, t, Next(ParenCloseStep(s, t), None))
  {
    var f := Flushed(s.ops, s.out);
    FlushKeepsOperands(s.ops, s.out);
    EmitOther(f.1, [CallToken(PopArity(s.arities).1)]);
    assert f.0 != [] ==> NoOperands(f.0[..|f.0| - 1]);
  }

  lemma RangeCloseKeepsOperands(s: State, t: Token)
    requires NoOperands(s.ops) && t.kind == RangeClose
    ensures KeepsOperands(s, t, RangeCloseStep(s, t))
  {
    var f := Flushed(s.ops, s.out);
    FlushKeepsOperands(s.ops, s.out);
    var n := RangeCloseStep(s, t);
    if f.0 == [] {
      assert n.st.out == f.1 && n.st.ops == [];
    } else {
      var open, rest := f.0[|f.0| - 1], f.0[..|f.0| - 1];
      assert NoOperands(rest);
      var joined := JoinRaw(open.raw, t.raw);
      if joined.Ok? {
        var emitted := [MakeAtom(PopArity(s.arities).1), open.(raw := joined.value, kind := AssignRange)];
        assert n.st.out == f.1 + emitted && n.st.ops == rest;
        EmitOther(f.1, emitted);
      } else {
        assert n.st.out == f.1 && n.st.ops == rest;
      }
    }
  }

  lemma CommaKeepsOperands(s: State, t: Token)
    requires NoOperands(s.ops) && t.kind == Comma
    ensures KeepsOperands(s, t, CommaStep(s, t))
  {
    FlushKeepsOperands(s.ops, s.out);
  }

  /** Pushing a token that is not an operand keeps the stack free of operands. */
  lemma PushKeepsOperands(ops: seq<Token>, t: Token)
    requires NoOperands(ops) && !IsOperand(t)
    ensures NoOperands(ops + [t])
  {
  }

  lemma OperatorKeepsOperands(s: State, t: Token)
    requires NoOperands(s.ops) && t.IsOperator()
    ensures KeepsOperands(s, t, OperatorStep(s, t))
  {
    if UnaryPosition(s) {
      PushKeepsOperands(s.ops, t.(kind := UnaryOperator));
    } else {
      PopKeepsOperands(s.ops, s.out, ShuntPrecedence(t.raw));
      PushKeepsOperands(PoppedHigher(s.ops, s.out, ShuntPrecedence(t.raw)).ops, t);
    }
  }

  /**
   * One token keeps operands off the operator stack and emits exactly the
   * operand it is, if any; a token that is an operand never raises.
   */
  lemma StepKeepsOperands(s: State, t: Token)
    requires NoOperands(s.ops)
    ensures KeepsOperands(s, t, Step(s, t))
  {
    if t.IsData() {
      DataKeepsOperands(s, t);
    } else if t.kind == ParenOpen {
      PushKeepsOperands(s.ops, t);
    } else if t.kind == ParenClose {
      ParenCloseKeepsOperands(s, t);
    } else if t.kind == RangeOpen {
      PushKeepsOperands(s.ops, t);
    } else if t.kind == RangeClose {
      RangeCloseKeepsOperands(s, t);
    } else if t.kind == Comma {
      CommaKeepsOperands(s, t);
    } else if t.IsOperator() {
      OperatorKeepsOperands(s, t);
    }
  }

  /**
   * Over a whole run the operands come out in input order: what is emitted
   * is a prefix of the operands fed in, and all of them when nothing raised.
   */
  lemma {:induction false} RunKeepsOperands(s: State, ts: seq<Token>)
    requires NoOperands(s.ops)
    ensures var n := Run(s, ts);
      && NoOperands(n.st.ops)
      && Operands(n.st.out) <= Operands(s.out) + Operands(ts)
      && (n.fault.None? ==> Operands(n.st.out) == Operands(s.out) + Operands(ts))
    decreases |ts|
  {
    if ts != [] {
      var n1 := Step(s, ts[0]);
      StepKeepsOperands(s, ts[0]);
      assert Operands(s.out) + Operands(ts) == Operands(n1.st.out) + Operands(ts[1..]);
      if n1.fault.None? {
        RunKeepsOperands(n1.st, ts[1..]);
      }
    }
  }

  /**
   * `shunt` loses and reorders no operand: its output's operands are a
   * prefix of the input's, and all of them when nothing raised.
   */
  lemma ShuntKeepsOperands(input: Stream)
    ensures var out := Operands(Shunted(input).items);
      && out <= Operands(input.items)
      && (Shunted(input).fault.None? ==> out == Operands(input.items))
  {
    RunKeepsOperands(Initial, input.items);
    var n := Run(Initial, input.items);
    assert Operands(Initial.out) + Operands(input.items) == Operands(input.items);
    if n.fault.None? && input.fault.None? {
      EmitStacked(n.st.out, n.st.ops, 0);
      assert n.st.ops[0..] == n.st.ops;
      assert Shunted(input).items == n.st.out + Reverse(n.st.ops);
    } else {
      assert Shunted(input).items == n.st.out;
    }
  }
}

/**
 * Small expressions run through the engine. Each step lemma pins down the
 * state after one token; the examples chain them.
 */
module ShuntingExamples {
  import opened Wrappers
  import opened Faults
  import opened Tokens
  import opened Seqs
  import opened Shunting
  import opened ShuntingFacts

  lemma RunCons(s: State, t: Token, rest: seq<Token>, next: State)
    requires Step(s, t) == Next(next, None)
    ensures Run(s, [t] + rest) == Run(next, rest)
  {
    assert ([t] + rest)[1..] == rest;
  }

  lemma RunEnd(s: State)
    ensures Run(s, []) == Next(s, None)
  {
  }

  lemma Run2(s0: State, t1: Token, t2: Token, rest: seq<Token>, s1: State, s2: State)
    requires Step(s0, t1) == Next(s1, None) && Step(s1, t2) == Next(s2, None)
    ensures Run(s0, [t1, t2] + rest) == Run(s2, rest)
  {
    assert [t1, t2] + rest == [t1] + ([t2] + rest);
    RunCons(s0, t1, [t2] + rest, s1);
    RunCons(s1, t2, rest, s2);
  }

  lemma Run3(s0: State, t1: Token, t2: Token, t3: Token, rest: seq<Token>, s1: State, s2: State, s3: State)
    requires Step(s0, t1) == Next(s1, None) && Step(s1, t2) == Next(s2, None) && Step(s2, t3) == Next(s3, None)
    ensures Run(s0, [t1, t2, t3] + rest) == Run(s3, rest)
  {
    assert [t1, t2, t3] + rest == [t1] + ([t2, t3] + rest);
    RunCons(s0, t1, [t2, t3] + rest, s1);
    Run2(s1, t2, t3, rest, s2, s3);
  }

  // ---------------------------------------------------------------------
  // Single steps

  lemma DataFirstStep(s: State, t: Token, next: State)
    requires t.IsData() && !(s.prev.Some? && s.prev.value.IsData())
    requires next == s.(out := s.out + [t], prev := Some(t))
    ensures Step(s, t) == Next(next, None)
  {
    DataEmittedAtOnce(s, t);
  }

  lemma DataAfterDataStep(s: State, t: Token, next: State)
    requires t.IsData() && s.prev.Some? && s.prev.value.IsData() && s.ops == []
    requires next == s.(out := s.out + [t], prev := Some(t))
    ensures Step(s, t) == Next(next, None)
  {
  }

  lemma BlankStep(s: State, t: Token)
    requires t.IsBlank()
    ensures Step(s, t) == Next(s, None)
  {
  }

  lemma UnaryStep(s: State, t: Token, next: State)
    requires t.kind == Operator && UnaryPosition(s)
    requires next == s.(ops := s.ops + [t.(kind := UnaryOperator)], prev := Some(t.(kind := UnaryOperator)))
    ensures Step(s, t) == Next(next, None)
  {
    UnaryExactlyWithoutOperand(s, t);
  }

  lemma BinaryOnEmptyStep(s: State, t: Token, next: State)
    requires t.kind == Operator && !UnaryPosition(s) && s.ops == []
    requires next == s.(ops := [t], prev := Some(t))
    ensures Step(s, t) == Next(next, None)
  {
  }

  lemma BinaryPopsStep(s: State, t: Token, m: Token, next: State)
    requires t.kind == Operator && !UnaryPosition(s) && s.ops == [m] && Outranks(m, ShuntPrecedence(t.raw))
    requires next == s.(ops := [t], out := s.out + [m], prev := Some(t))
    ensures Step(s, t) == Next(next, None)
  {
    assert PoppedHigher([m], s.out, ShuntPrecedence(t.raw)) == PoppedHigher([], s.out + [m], ShuntPrecedence(t.raw));
  }

  lemma BinaryStacksStep(s: State, t: Token, m: Token, next: State)
    requires t.kind == Operator && !UnaryPosition(s) && s.ops == [m] && m.IsOperator()
    requires ShuntPrecedence(m.raw).Some? && ShuntPrecedence(t.raw).Some?
    requires ShuntPrecedence(m.raw).value < ShuntPrecedence(t.raw).value
    requires next == s.(ops := [m, t], prev := Some(t))
    ensures Step(s, t) == Next(next, None)
  {
  }

  lemma CallOpenStep(s: State, t: Token, next: State)
    requires t.kind == ParenOpen && s.prev.Some? && s.prev.value.IsDataLike()
    requires next == s.(ops := s.ops + [t], calls := s.calls + [true], arities := s.arities + [1], prev := Some(t))
    ensures Step(s, t) == Next(next, None)
  {
  }

  lemma CommaAtMarkerStep(s: State, t: Token, k: nat, next: State)
    requires t.kind == Comma && s.arities == [k] && s.ops != [] && IsMarker(s.ops[|s.ops| - 1])
    requires next == s.(arities := [k + 1], prev := Some(t))
    ensures Step(s, t) == Next(next, None)
  {
    assert Flushed(s.ops, s.out) == (s.ops, s.out);
  }

  lemma CallCloseStep(s: State, t: Token, p: Token, k: nat, next: State)
    requires t.kind == ParenClose && p.kind == ParenOpen && s.ops == [p] && s.calls == [true] && s.arities == [k]
    requires next == State([], [], [], Some(t), s.out + [CallToken(Some(k))])
    ensures Step(s, t) == Next(next, None)
  {
    assert Flushed(s.ops, s.out) == (s.ops, s.out);
  }

  lemma RangeOpenStep1(s: State, t: Token, next: State)
    requires t.kind == RangeOpen
    requires next == s.(ops := s.ops + [t], arities := s.arities + [1], prev := Some(t))
    ensures Step(s, t) == Next(next, None)
  {
  }

  lemma RangeCloseStep1(s: State, t: Token, o: Token, k: nat, next: State)
    requires t.kind == RangeClose && o.kind == RangeOpen && t.raw.Text? && o.raw.Text?
    requires s.ops == [o] && s.arities == [k]
    requires next == s.(ops := [], arities := [], prev := Some(t),
                        out := s.out + [MakeAtom(Some(k)), Token(Text(o.raw.s + t.raw.s), AssignRange, o.at)])
    ensures Step(s, t) == Next(next, None)
  {
    assert Flushed(s.ops, s.out) == (s.ops, s.out);
  }

  // ---------------------------------------------------------------------
  // Expressions

  /** The first three tokens of `a m b n c` leave `m` stacked and `a b` emitted. */
  lemma OperandOperatorOperand(a: Token, m: Token, b: Token, rest: seq<Token>)
    requires a.IsData() && b.IsData() && m.kind == Operator
    ensures Run(Initial, [a, m, b] + rest) == Run(State([m], [], [], Some(b), [a, b]), rest)
  {
    var s1 := State([], [], [], Some(a), [a]);
    var s2 := State([m], [], [], Some(m), [a]);
    var s3 := State([m], [], [], Some(b), [a, b]);
    DataFirstStep(Initial, a, s1);
    BinaryOnEmptyStep(s1, m, s2);
    DataFirstStep(s2, b, s3);
    Run3(Initial, a, m, b, rest, s1, s2, s3);
  }

  /**
   * `a m b n c` with `m` ranked at least as high as `n` comes out as
   * `a b m c n`: operators of equal rank group to the left.
   */
  lemma ShuntLeftAssociative(a: Token, m: Token, b: Token, n: Token, c: Token)
    requires a.IsData() && b.IsData() && c.IsData() && m.kind == Operator && n.kind == Operator
    requires ShuntPrecedence(m.raw).Some? && ShuntPrecedence(n.raw).Some?
    requires ShuntPrecedence(m.raw).value >= ShuntPrecedence(n.raw).value
    ensures Shunted(Stream([a, m, b, n, c], None)) == Stream([a, b, m, c, n], None)
  {
    assert [a, m, b, n, c] == [a, m, b] + [n, c];
    OperandOperatorOperand(a, m, b, [n, c]);
    var s3 := State([m], [], [], Some(b), [a, b]);
    var s4 := State([n], [], [], Some(n), [a, b, m]);
    var s5 := State([n], [], [], Some(c), [a, b, m, c]);
    BinaryPopsStep(s3, n, m, s4);
    DataFirstStep(s4, c, s5);
    assert [n, c] == [n, c] + [];
    Run2(s3, n, c, [], s4, s5);
    RunEnd(s5);
  }

  /**
   * `a m b n c` with `n` ranked strictly above `m` comes out as `a b c n m`:
   * the higher-ranked operator binds first.
   */
  lemma ShuntHigherRankFirst(a: Token, m: Token, b: Token, n: Token, c: Token)
    requires a.IsData() && b.IsData() && c.IsData() && m.kind == Operator && n.kind == Operator
    requires ShuntPrecedence(m.raw).Some? && ShuntPrecedence(n.raw).Some?
    requires ShuntPrecedence(m.raw).value < ShuntPrecedence(n.raw).value
    ensures Shunted(Stream([a, m, b, n, c], None)) == Stream([a, b, c, n, m], None)
  {
    assert [a, m, b, n, c] == [a, m, b] + [n, c];
    OperandOperatorOperand(a, m, b, [n, c]);
    var s3 := State([m], [], [], Some(b), [a, b]);
    var s4 := State([m, n], [], [], Some(n), [a, b]);
    var s5 := State([m, n], [], [], Some(c), [a, b, c]);
    BinaryStacksStep(s3, n, m, s4);
    DataFirstStep(s4, c, s5);
    assert [n, c] == [n, c] + [];
    Run2(s3, n, c, [], s4, s5);
    RunEnd(s5);
    assert Reverse([m, n]) == [n, m];
  }

  /** `m a n b` with a leading `m`: `m` is unary, binds `a` alone, and is popped by `n`. */
  lemma ShuntUnaryThenBinary(m: Token, a: Token, n: Token, b: Token)
    requires a.IsData() && b.IsData() && m.kind == Operator && n.kind == Operator
    requires ShuntPrecedence(m.raw).Some? && ShuntPrecedence(n.raw).Some?
    requires ShuntPrecedence(m.raw).value >= ShuntPrecedence(n.raw).value
    ensures Shunted(Stream([m, a, n, b], None)) == Stream([a, m.(kind := UnaryOperator), b, n], None)
  {
    var u := m.(kind := UnaryOperator);
    var s1 := State([u], [], [], Some(u), []);
    var s2 := State([u], [], [], Some(a), [a]);
    var s3 := State([n], [], [], Some(n), [a, u]);
    var s4 := State([n], [], [], Some(b), [a, u, b]);
    UnaryStep(Initial, m, s1);
    DataFirstStep(s1, a, s2);
    BinaryPopsStep(s2, n, u, s3);
    DataFirstStep(s3, b, s4);
    assert [m, a, n, b] == [m, a, n] + [b];
    Run3(Initial, m, a, n, [b], s1, s2, s3);
    assert [b] == [b] + [];
    RunCons(s3, b, [], s4);
    RunEnd(s4);
  }

  /** `a b` (a blank between two operands) emits both: two separate expressions. */
  lemma ShuntTwoOperands(a: Token, sp: Token, b: Token)
    requires a.IsData() && b.IsData() && sp.IsBlank()
    ensures Shunted(Stream([a, sp, b], None)) == Stream([a, b], None)
  {
    var s1 := State([], [], [], Some(a), [a]);
    var s2 := State([], [], [], Some(b), [a, b]);
    DataFirstStep(Initial, a, s1);
    BlankStep(s1, sp);
    DataAfterDataStep(s1, b, s2);
    assert [a, sp, b] == [a, sp, b] + [];
    Run3(Initial, a, sp, b, [], s1, s1, s2);
    RunEnd(s2);
  }

  /** `f ( a` opens a call and emits `f a`. */
  lemma CallStart(f: Token, p: Token, a: Token, rest: seq<Token>)
    requires f.IsData() && a.IsData() && p.kind == ParenOpen
    ensures Run(Initial, [f, p, a] + rest) == Run(State([p], [1], [true], Some(a), [f, a]), rest)
  {
    var s1 := State([], [], [], Some(f), [f]);
    var s2 := State([p], [1], [true], Some(p), [f]);
    var s3 := State([p], [1], [true], Some(a), [f, a]);
    DataFirstStep(Initial, f, s1);
    CallOpenStep(s1, p, s2);
    DataFirstStep(s2, a, s3);
    Run3(Initial, f, p, a, rest, s1, s2, s3);
  }

  /** `f(a, b)` comes out as `f a b call_func(2)`. */
  lemma ShuntCallOfTwo(f: Token, p: Token, a: Token, c: Token, b: Token, q: Token)
    requires f.IsData() && a.IsData() && b.IsData()
    requires p.kind == ParenOpen && c.kind == Comma && q.kind == ParenClose
    ensures Shunted(Stream([f, p, a, c, b, q], None)) == Stream([f, a, b, CallToken(Some(2))], None)
  {
    assert [f, p, a, c, b, q] == [f, p, a] + [c, b, q];
    CallStart(f, p, a, [c, b, q]);
    var s3 := State([p], [1], [true], Some(a), [f, a]);
    var s4 := State([p], [2], [true], Some(c), [f, a]);
    var s5 := State([p], [2], [true], Some(b), [f, a, b]);
    var s6 := State([], [], [], Some(q), [f, a, b, CallToken(Some(2))]);
    CommaAtMarkerStep(s3, c, 1, s4);
    DataFirstStep(s4, b, s5);
    CallCloseStep(s5, q, p, 2, s6);
    assert [c, b, q] == [c, b, q] + [];
    Run3(s3, c, b, q, [], s4, s5, s6);
    RunEnd(s6);
  }

  /** `f (` opens a call of one argument after emitting `f`. */
  lemma EmptyCallStart(f: Token, p: Token, rest: seq<Token>)
    requires f.IsData() && p.kind == ParenOpen
    ensures Run(Initial, [f, p] + rest) == Run(State([p], [1], [true], Some(p), [f]), rest)
  {
    var s1 := State([], [], [], Some(f), [f]);
    var s2 := State([p], [1], [true], Some(p), [f]);
    DataFirstStep(Initial, f, s1);
    CallOpenStep(s1, p, s2);
    Run2(Initial, f, p, rest, s1, s2);
  }

  /** `f()` comes out as `f call_func(1)`: an empty argument list still counts one. */
  lemma ShuntEmptyCall(f: Token, p: Token, q: Token)
    requires f.IsData() && p.kind == ParenOpen && q.kind == ParenClose
    ensures Shunted(Stream([f, p, q], None)) == Stream([f, CallToken(Some(1))], None)
  {
    assert [f, p, q] == [f, p] + [q];
    EmptyCallStart(f, p, [q]);
    var s2 := State([p], [1], [true], Some(p), [f]);
    var s3 := State([], [], [], Some(q), [f, CallToken(Some(1))]);
    CallCloseStep(s2, q, p, 1, s3);
    assert [q] == [q] + [];
    RunCons(s2, q, [], s3);
    RunEnd(s3);
  }

  /** `[ a ,` stacks the open and counts two elements. */
  lemma RangeStart(o: Token, a: Token, c: Token, rest: seq<Token>)
    requires a.IsData() && o.kind == RangeOpen && c.kind == Comma
    ensures Run(Initial, [o, a, c] + rest) == Run(State([o], [2], [], Some(c), [a]), rest)
  {
    var s1 := State([o], [1], [], Some(o), []);
    var s2 := State([o], [1], [], Some(a), [a]);
    var s3 := State([o], [2], [], Some(c), [a]);
    RangeOpenStep1(Initial, o, s1);
    DataFirstStep(s1, a, s2);
    CommaAtMarkerStep(s2, c, 1, s3);
    Run3(Initial, o, a, c, rest, s1, s2, s3);
  }

  /** `[a, b]` comes out as `a b atom(2) assign_range`, the range's raw being both brackets. */
  lemma ShuntRangeOfTwo(o: Token, a: Token, c: Token, b: Token, t: Token)
    requires a.IsData() && b.IsData() && o.kind == RangeOpen && c.kind == Comma && t.kind == RangeClose
    requires o.raw.Text? && t.raw.Text?
    ensures Shunted(Stream([o, a, c, b, t], None))
      == Stream([a, b, MakeAtom(Some(2)), Token(Text(o.raw.s + t.raw.s), AssignRange, o.at)], None)
  {
    assert [o, a, c, b, t] == [o, a, c] + [b, t];
    RangeStart(o, a, c, [b, t]);
    var s3 := State([o], [2], [], Some(c), [a]);
    var s4 := State([o], [2], [], Some(b), [a, b]);
    var s5 := State([], [], [], Some(t), [a, b, MakeAtom(Some(2)), Token(Text(o.raw.s + t.raw.s), AssignRange, o.at)]);
    DataFirstStep(s3, b, s4);
    RangeCloseStep1(s4, t, o, 2, s5);
    assert [b, t] == [b, t] + [];
    Run2(s3, b, t, [], s4, s5);
    RunEnd(s5);
  }

  /** A leading `(` raises before anything is emitted. */
  lemma ShuntLeadingParen(p: Token, rest: seq<Token>)
    requires p.kind == ParenOpen
    ensures Shunted(Stream([p] + rest, None)) == Stream([], Some(NoPreviousToken))
  {
    assert Step(Initial, p) == Next(Initial, Some(NoPreviousToken));
  }

  /**
   * `a m b d c` where `d` has no rank in the engine's table (`//`, `@`) and
   * `m` is a binary operator: the comparison raises after `a b` are emitted.
   */
  lemma ShuntUnrankedAfterOperator(a: Token, m: Token, b: Token, d: Token, c: Token)
    requires a.IsData() && b.IsData() && m.kind == Operator && d.kind == Operator
    requires ShuntPrecedence(d.raw).None?
    ensures Shunted(Stream([a, m, b, d, c], None)) == Stream([a, b], Some(MissingPrecedence))
  {
    assert [a, m, b, d, c] == [a, m, b] + [d, c];
    OperandOperatorOperand(a, m, b, [d, c]);
    var s3 := State([m], [], [], Some(b), [a, b]);
    assert Step(s3, d) == Next(s3, Some(MissingPrecedence));
    assert [d, c][0] == d;
  }
}
