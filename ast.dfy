/**
 * The tree builder (`ast`): folds the engine's postfix stream into
 * `ASTNode(head, children)` trees on an operand stack, and returns the
 * stack. It consumes each token the moment the engine emits it, so a fault
 * of the builder on an emitted token comes before any later fault of the
 * engine or the lexer.
 */
module Ast {
  import opened Wrappers
  import opened Faults
  import opened Tokens
  import opened Shunting

  /**
   * What sits on the operand stack or in a node: a token, an `ASTNode`
   * (whose head is a token, or for a call the callee, itself a tree), the
   * nil a `pop` on an empty stack gives, and a Ruby array (the statement
   * list a block node carries).
   */
  datatype Tree = Leaf(tok: Token) | Node(head: Tree, children: seq<Tree>) | Nil | List(items: seq<Tree>)

  /** `stack.pop(n)`: the last `n` entries in their order (all of them when there are fewer), and what stays. */
  function PopN(stack: seq<Tree>, n: nat): (r: (seq<Tree>, seq<Tree>))
    ensures r.0 + r.1 == stack
    ensures |r.1| == if n <= |stack| then n else |stack|
  {
    var k := if n <= |stack| then |stack| - n else 0;
    (stack[..k], stack[k..])
  }

  /** `stack.pop`: the top entry (nil on an empty stack) and what stays. */
  function Pop(stack: seq<Tree>): (r: (seq<Tree>, Tree))
    ensures stack == [] ==> r == ([], Nil)
    ensures stack != [] ==> stack == r.0 + [r.1]
  {
    if stack == [] then ([], Nil) else (stack[..|stack| - 1], stack[|stack| - 1])
  }

  /**
   * The body of the block `ast` gives to `shunt`: data is pushed; an
   * operator takes its operands (one when unary, else two); `assign_range`
   * pops its count and then that many elements; `call_func` pops its
   * arguments and then the callee. Other kinds are only reported.
   */
  function BuildStep(stack: seq<Tree>, t: Token): Result<seq<Tree>, Fault> {
    if t.IsData() then Ok(stack + [Leaf(t)])
    else if t.IsOperator() then
      var args := PopN(stack, if t.kind == UnaryOperator then 1 else 2);
      Ok(args.0 + [Node(Leaf(t), args.1)])
    else if t.kind == AssignRange then
      var count := Pop(stack);
      if !count.1.Leaf? then Err(NoMethod)
      else if !count.1.tok.raw.Count? then Err(BadCount)
      else
        var args := PopN(count.0, count.1.tok.raw.n);
        Ok(args.0 + [Node(Leaf(t), args.1)])
    else if t.kind == CallFunc then
      if !t.raw.Count? then Err(BadCount)
      else
        var args := PopN(stack, t.raw.n);
        var callee := Pop(args.0);
        Ok(callee.0 + [Node(callee.1, args.1)])
    else Ok(stack)
  }

  /** The builder over the tokens `ts`, stopping at the first fault. */
  function Build(stack: seq<Tree>, ts: seq<Token>): Result<seq<Tree>, Fault>
    decreases |ts|
  {
    if ts == [] then Ok(stack)
    else
      match BuildStep(stack, ts[0])
      case Err(f) => Err(f)
      case Ok(next) => Build(next, ts[1..])
  }

  /**
   * `ast(code)` over the lexer's stream: the trees left on the stack, or the
   * first fault, where a fault of the builder on an emitted token precedes
   * the engine's or the lexer's.
   */
  function AstOf(input: Stream): Result<seq<Tree>, Fault> {
    var s := Shunted(input);
    match Build([], s.items)
    case Err(f) => Err(f)
    case Ok(stack) => if s.fault.Some? then Err(s.fault.value) else Ok(stack)
  }

  /** One pass of the block `ast` gives to `shunt`, on the operand stack. */
  method Absorb(stack: seq<Tree>, t: Token) returns (r: Result<seq<Tree>, Fault>)
    ensures r == BuildStep(stack, t)
  {
    var st := stack;
    if t.IsData() {
      st := st + [Leaf(t)];
    } else if t.IsOperator() {
      var n := if t.kind == UnaryOperator then 1 else 2;
      var args := PopN(st, n);
      st := args.0 + [Node(Leaf(t), args.1)];
    } else if t.kind == AssignRange {
      var count := Pop(st);
      if !count.1.Leaf? {
        return Err(NoMethod);
      }
      if !count.1.tok.raw.Count? {
        return Err(BadCount);
      }
      var args := PopN(count.0, count.1.tok.raw.n);
      st := args.0 + [Node(Leaf(t), args.1)];
    } else if t.kind == CallFunc {
      if !t.raw.Count? {
        return Err(BadCount);
      }
      var args := PopN(st, t.raw.n);
      var callee := Pop(args.0);
      st := callee.0 + [Node(callee.1, args.1)];
    }
    r := Ok(st);
  }

  /** `ast(code)`: runs the engine, then feeds its output to the operand stack. */
  method Ast(input: Stream) returns (r: Result<seq<Tree>, Fault>)
    ensures r == AstOf(input)
  {
    var shunted := Shunt(input);
    var stack: seq<Tree> := [];
    var i := 0;
    while i < |shunted.items|
      invariant 0 <= i <= |shunted.items|
      invariant Build([], shunted.items) == Build(stack, shunted.items[i..])
      decreases |shunted.items| - i
    {
      var next := Absorb(stack, shunted.items[i]);
      assert shunted.items[i..][0] == shunted.items[i] && shunted.items[i..][1..] == shunted.items[i + 1..];
      if next.Err? {
        return Err(next.error);
      }
      stack := next.value;
      i := i + 1;
    }
    if shunted.fault.Some? {
      return Err(shunted.fault.value);
    }
    r := Ok(stack);
  }
}

/** What the builder does with each postfix token, and whole expressions run through the engine and the builder. */
module AstFacts {
  import opened Wrappers
  import opened Faults
  import opened Tokens
  import opened Shunting
  import opened Ast

  // ---------------------------------------------------------------------
  // One token

  /** Popping as many entries as `top` holds from `below + top` gives `top` and leaves `below`. */
  lemma PopNSplit(below: seq<Tree>, top: seq<Tree>)
    ensures PopN(below + top, |top|) == (below, top)
  {
    assert (below + top)[..|below|] == below;
    assert (below + top)[|below|..] == top;
  }

  /** Popping as many entries as there are empties the stack. */
  lemma PopNAll(stack: seq<Tree>)
    ensures PopN(stack, |stack|) == ([], stack)
  {
    assert stack[..0] == [] && stack[0..] == stack;
  }

  /** Popping one entry from `below + [x]` gives `x` and leaves `below`. */
  lemma PopSplit(below: seq<Tree>, x: Tree)
    ensures Pop(below + [x]) == (below, x)
  {
    assert (below + [x])[..|below|] == below;
  }

  /** A binary operator takes the top two entries as its operands, the deeper one first. */
  lemma BinaryTakesTwoInOrder(stack: seq<Tree>, a: Tree, b: Tree, t: Token)
    requires t.kind == Operator
    ensures BuildStep(stack + [a, b], t) == Ok(stack + [Node(Leaf(t), [a, b])])
  {
    PopNSplit(stack, [a, b]);
  }

  /** A unary operator takes only the top entry. */
  lemma UnaryTakesOne(stack: seq<Tree>, a: Tree, t: Token)
    requires t.kind == UnaryOperator
    ensures BuildStep(stack + [a], t) == Ok(stack + [Node(Leaf(t), [a])])
  {
    PopNSplit(stack, [a]);
  }

  /** Missing operands raise nothing: the operator gets the entries there are. */
  lemma OperatorOnShortStack(stack: seq<Tree>, t: Token)
    requires t.IsOperator() && |stack| <= 1
    ensures BuildStep(stack, t) == Ok([Node(Leaf(t), stack)])
  {
    var n := if t.kind == UnaryOperator then 1 else 2;
    assert PopN(stack, n) == ([], stack) by {
      PopNAll(stack);
    }
    assert [] + [Node(Leaf(t), stack)] == [Node(Leaf(t), stack)];
  }

  /** `assign_range` pops the count the engine emitted just before it, then that many elements, in order. */
  lemma RangeTakesCountedElements(stack: seq<Tree>, elems: seq<Tree>, t: Token)
    requires t.kind == AssignRange
    ensures BuildStep(stack + elems + [Leaf(MakeAtom(Some(|elems|)))], t) == Ok(stack + [Node(Leaf(t), elems)])
  {
    PopSplit(stack + elems, Leaf(MakeAtom(Some(|elems|))));
    PopNSplit(stack, elems);
  }

  /** `call_func` pops its arguments, in order, and then the callee, which becomes the head. */
  lemma CallTakesArgumentsThenCallee(stack: seq<Tree>, callee: Tree, args: seq<Tree>)
    ensures BuildStep(stack + [callee] + args, CallToken(Some(|args|))) == Ok(stack + [Node(callee, args)])
  {
    PopNSplit(stack + [callee], args);
    PopSplit(stack, callee);
  }

  /** With nothing under the arguments the callee is nil. */
  lemma CallWithoutCallee(args: seq<Tree>)
    ensures BuildStep(args, CallToken(Some(|args|))) == Ok([Node(Nil, args)])
  {
    var t := CallToken(Some(|args|));
    assert t.raw == Count(|args|);
    PopNAll(args);
    assert Pop([]) == ([], Nil);
    assert [] + [Node(Nil, args)] == [Node(Nil, args)];
  }

  /** A `call_func` without an integer count raises. */
  lemma CallWithoutCountRaises(stack: seq<Tree>)
    ensures BuildStep(stack, CallToken(None)) == Err(BadCount)
  {
  }

  /** An operand never raises and is pushed as a leaf. */
  lemma DataPushed(stack: seq<Tree>, t: Token)
    requires t.IsData()
    ensures BuildStep(stack, t) == Ok(stack + [Leaf(t)])
  {
  }

  /** An operand in front of the rest is pushed before the rest is built. */
  lemma PushCons(stack: seq<Tree>, t: Token, rest: seq<Token>)
    requires t.IsData()
    ensures Build(stack, [t] + rest) == Build(stack + [Leaf(t)], rest)
  {
    assert ([t] + rest)[0] == t && ([t] + rest)[1..] == rest;
  }

  /** The leaves of a sequence of tokens. */
  function Leaves(ts: seq<Token>): (r: seq<Tree>)
    ensures |r| == |ts|
  {
    if ts == [] then [] else [Leaf(ts[0])] + Leaves(ts[1..])
  }

  /** Each token has its own leaf, in place. */
  lemma {:induction false} LeavesAt(ts: seq<Token>, i: nat)
    requires i < |ts|
    ensures Leaves(ts)[i] == Leaf(ts[i])
    decreases i
  {
    if i > 0 {
      LeavesAt(ts[1..], i - 1);
    }
  }

  lemma {:induction false} LeavesAppend(xs: seq<Token>, ys: seq<Token>)
    ensures Leaves(xs + ys) == Leaves(xs) + Leaves(ys)
    decreases |xs|
  {
    if xs == [] {
      assert xs + ys == ys;
    } else {
      LeavesAppend(xs[1..], ys);
      assert (xs + ys)[0] == xs[0] && (xs + ys)[1..] == xs[1..] + ys;
    }
  }

  /** Operands alone each become a tree of their own, in order. */
  lemma {:induction false} OperandsAreRoots(stack: seq<Tree>, ts: seq<Token>)
    requires forall i :: 0 <= i < |ts| ==> ts[i].IsData()
    ensures Build(stack, ts) == Ok(stack + Leaves(ts))
    decreases |ts|
  {
    if ts != [] {
      OperandsAreRoots(stack + [Leaf(ts[0])], ts[1..]);
      assert stack + [Leaf(ts[0])] + Leaves(ts[1..]) == stack + Leaves(ts);
    } else {
      assert stack + Leaves(ts) == stack;
    }
  }

  /** Building `xs + ys` is building `xs` and then `ys` on the stack it leaves, unless `xs` raises. */
  lemma {:induction false} BuildAppend(stack: seq<Tree>, xs: seq<Token>, ys: seq<Token>)
    ensures Build(stack, xs + ys) == match Build(stack, xs) case Err(f) => Err(f) case Ok(mid) => Build(mid, ys)
    decreases |xs|
  {
    if xs == [] {
      assert xs + ys == ys;
    } else {
      assert (xs + ys)[0] == xs[0] && (xs + ys)[1..] == xs[1..] + ys;
      match BuildStep(stack, xs[0]) {
        case Err(f) =>
        case Ok(next) => BuildAppend(next, xs[1..], ys);
      }
    }
  }

  /** From an empty stack, operands alone are exactly their leaves. */
  lemma OperandsFromEmpty(ts: seq<Token>)
    requires forall i :: 0 <= i < |ts| ==> ts[i].IsData()
    ensures Build([], ts) == Ok(Leaves(ts))
  {
    OperandsAreRoots([], ts);
    assert [] + Leaves(ts) == Leaves(ts);
  }

  /** A single token is one step. */
  lemma BuildOne(stack: seq<Tree>, t: Token)
    ensures Build(stack, [t]) == BuildStep(stack, t)
  {
    assert [t][0] == t && [t][1..] == [];
  }

  /** Operands followed by one more operand: their leaves and its leaf. */
  lemma OperandsThenOne(xs: seq<Token>, t: Token)
    requires forall i :: 0 <= i < |xs| ==> xs[i].IsData()
    requires t.IsData()
    ensures Build([], xs + [t]) == Ok(Leaves(xs) + [Leaf(t)])
  {
    var ts := xs + [t];
    assert forall i :: 0 <= i < |ts| ==> ts[i].IsData();
    OperandsFromEmpty(ts);
    LeavesAppend(xs, [t]);
    assert Leaves([t]) == [Leaf(t)] by {
      assert [t][0] == t && [t][1..] == [];
    }
  }

  /** A prefix that leaves `stack`, then one token. */
  lemma BuildThenOne(xs: seq<Token>, stack: seq<Tree>, t: Token)
    requires Build([], xs) == Ok(stack)
    ensures Build([], xs + [t]) == BuildStep(stack, t)
  {
    BuildAppend([], xs, [t]);
    BuildOne(stack, t);
  }

  /** `assign_range` on a stack of exactly the elements and their count. */
  lemma RangeNodeStep(elems: seq<Tree>, r: Token)
    requires r.kind == AssignRange
    ensures BuildStep(elems + [Leaf(MakeAtom(Some(|elems|)))], r) == Ok([Node(Leaf(r), elems)])
  {
    var node := Node(Leaf(r), elems);
    PopSplit(elems, Leaf(MakeAtom(Some(|elems|))));
    PopNAll(elems);
    assert [] + [node] == [node];
  }

  /** Postfix elements, their count and `assign_range` build one range node over the elements, in order. */
  lemma BuildRangeOf(elems: seq<Token>, r: Token)
    requires forall i :: 0 <= i < |elems| ==> elems[i].IsData()
    requires r.kind == AssignRange
    ensures Build([], elems + [MakeAtom(Some(|elems|))] + [r]) == Ok([Node(Leaf(r), Leaves(elems))])
  {
    var count := MakeAtom(Some(|elems|));
    OperandsThenOne(elems, count);
    BuildThenOne(elems + [count], Leaves(elems) + [Leaf(count)], r);
    RangeNodeStep(Leaves(elems), r);
  }

  /** A callee and operands as arguments: the callee's leaf under the arguments' leaves. */
  lemma CalleeAndArguments(f: Token, args: seq<Token>)
    requires f.IsData() && forall i :: 0 <= i < |args| ==> args[i].IsData()
    ensures Build([], [f] + args) == Ok([Leaf(f)] + Leaves(args))
  {
    var ts := [f] + args;
    assert forall i :: 0 <= i < |ts| ==> ts[i].IsData();
    OperandsFromEmpty(ts);
    assert Leaves(ts) == [Leaf(f)] + Leaves(args);
  }

  /** `call_func` on a stack of exactly the callee and the arguments. */
  lemma CallNodeStep(callee: Tree, args: seq<Tree>)
    ensures BuildStep([callee] + args, CallToken(Some(|args|))) == Ok([Node(callee, args)])
  {
    var node := Node(callee, args);
    PopNSplit([callee], args);
    PopSplit([], callee);
    assert [] + [callee] == [callee];
    assert [] + [node] == [node];
  }

  /** A callee, its postfix arguments and `call_func` with their count build one call node. */
  lemma BuildCallOf(f: Token, args: seq<Token>)
    requires f.IsData() && forall i :: 0 <= i < |args| ==> args[i].IsData()
    ensures Build([], [f] + args + [CallToken(Some(|args|))]) == Ok([Node(Leaf(f), Leaves(args))])
  {
    CalleeAndArguments(f, args);
    BuildThenOne([f] + args, [Leaf(f)] + Leaves(args), CallToken(Some(|args|)));
    CallNodeStep(Leaf(f), Leaves(args));
  }

  /** What `ast` returns when the builder accepts every emitted token: the stack, or the fault the stream ends with. */
  lemma AstOfShunted(input: Stream, stack: seq<Tree>)
    requires Build([], Shunted(input).items) == Ok(stack)
    ensures AstOf(input) == if Shunted(input).fault.Some? then Err(Shunted(input).fault.value) else Ok(stack)
  {
  }
}

/** Small expressions run through the engine and the builder. */
module AstExamples {
  import opened Wrappers
  import opened Faults
  import opened Tokens
  import opened Shunting
  import opened ShuntingExamples
  import opened Ast
  import opened AstFacts

  lemma BuildCons(stack: seq<Tree>, t: Token, rest: seq<Token>, next: seq<Tree>)
    requires BuildStep(stack, t) == Ok(next)
    ensures Build(stack, [t] + rest) == Build(next, rest)
  {
    assert ([t] + rest)[0] == t && ([t] + rest)[1..] == rest;
  }

  /** `b m` on a stack topped by `a` builds `m(a, b)` in its place. */
  lemma BuildBinary(stack: seq<Tree>, a: Tree, b: Token, m: Token, rest: seq<Token>)
    requires b.IsData() && m.kind == Operator
    ensures Build(stack + [a], [b, m] + rest) == Build(stack + [Node(Leaf(m), [a, Leaf(b)])], rest)
  {
    assert [b, m] + rest == [b] + ([m] + rest);
    PushCons(stack + [a], b, [m] + rest);
    assert stack + [a] + [Leaf(b)] == stack + [a, Leaf(b)];
    BinaryTakesTwoInOrder(stack, a, Leaf(b), m);
    BuildCons(stack + [a, Leaf(b)], m, rest, stack + [Node(Leaf(m), [a, Leaf(b)])]);
  }

  /** Postfix `a b m c n` builds `n(m(a, b), c)`. */
  lemma BuildLeftNested(a: Token, m: Token, b: Token, n: Token, c: Token)
    requires a.IsData() && b.IsData() && c.IsData() && m.kind == Operator && n.kind == Operator
    ensures Build([], [a, b, m, c, n]) == Ok([Node(Leaf(n), [Node(Leaf(m), [Leaf(a), Leaf(b)]), Leaf(c)])])
  {
    var inner := Node(Leaf(m), [Leaf(a), Leaf(b)]);
    assert [a, b, m, c, n] == [a] + ([b, m] + [c, n]);
    PushCons([], a, [b, m] + [c, n]);
    assert [] + [Leaf(a)] == [] + [Leaf(a)];
    BuildBinary([], Leaf(a), b, m, [c, n]);
    assert [] + [inner] == [inner];
    assert [c, n] == [c, n] + [];
    BuildBinary([], inner, c, n, []);
    assert [] + [Node(Leaf(n), [inner, Leaf(c)])] == [Node(Leaf(n), [inner, Leaf(c)])];
  }

  /** `1-2-3` shape, for any operands and two ranked operators where the first ranks at least as high: `n(m(a, b), c)`. */
  lemma AstLeftAssociative(a: Token, m: Token, b: Token, n: Token, c: Token)
    requires a.IsData() && b.IsData() && c.IsData() && m.kind == Operator && n.kind == Operator
    requires ShuntPrecedence(m.raw).Some? && ShuntPrecedence(n.raw).Some?
    requires ShuntPrecedence(m.raw).value >= ShuntPrecedence(n.raw).value
    ensures AstOf(Stream([a, m, b, n, c], None))
      == Ok([Node(Leaf(n), [Node(Leaf(m), [Leaf(a), Leaf(b)]), Leaf(c)])])
  {
    ShuntLeftAssociative(a, m, b, n, c);
    BuildLeftNested(a, m, b, n, c);
  }

  /** Postfix `a b c n m` builds `m(a, n(b, c))`. */
  lemma BuildRightNested(a: Token, m: Token, b: Token, n: Token, c: Token)
    requires a.IsData() && b.IsData() && c.IsData() && m.kind == Operator && n.kind == Operator
    ensures Build([], [a, b, c, n, m]) == Ok([Node(Leaf(m), [Leaf(a), Node(Leaf(n), [Leaf(b), Leaf(c)])])])
  {
    var right := Node(Leaf(n), [Leaf(b), Leaf(c)]);
    var top := Node(Leaf(m), [Leaf(a), right]);
    assert Build([], [a, b, c, n, m]) == Build([Leaf(a)], [b, c, n, m]) by {
      assert [a, b, c, n, m] == [a] + [b, c, n, m];
      PushCons([], a, [b, c, n, m]);
      assert [] + [Leaf(a)] == [Leaf(a)];
    }
    assert Build([Leaf(a)], [b, c, n, m]) == Build([Leaf(a), Leaf(b)], [c, n, m]) by {
      assert [b, c, n, m] == [b] + [c, n, m];
      PushCons([Leaf(a)], b, [c, n, m]);
      assert [Leaf(a)] + [Leaf(b)] == [Leaf(a), Leaf(b)];
    }
    assert Build([Leaf(a), Leaf(b)], [c, n, m]) == Build([Leaf(a), right], [m]) by {
      assert [c, n, m] == [c, n] + [m];
      assert [Leaf(a), Leaf(b)] == [Leaf(a)] + [Leaf(b)];
      BuildBinary([Leaf(a)], Leaf(b), c, n, [m]);
      assert [Leaf(a)] + [right] == [Leaf(a), right];
    }
    assert Build([Leaf(a), right], [m]) == Ok([top]) by {
      BinaryTakesTwoInOrder([], Leaf(a), right, m);
      assert [] + [Leaf(a), right] == [Leaf(a), right];
      assert [] + [top] == [top];
      assert [m] == [m] + [];
      BuildCons([Leaf(a), right], m, [], [top]);
    }
  }

  /** `1+2*3` shape: with `n` ranked strictly above `m`, the tree is `m(a, n(b, c))`. */
  lemma AstHigherRankFirst(a: Token, m: Token, b: Token, n: Token, c: Token)
    requires a.IsData() && b.IsData() && c.IsData() && m.kind == Operator && n.kind == Operator
    requires ShuntPrecedence(m.raw).Some? && ShuntPrecedence(n.raw).Some?
    requires ShuntPrecedence(m.raw).value < ShuntPrecedence(n.raw).value
    ensures AstOf(Stream([a, m, b, n, c], None))
      == Ok([Node(Leaf(m), [Leaf(a), Node(Leaf(n), [Leaf(b), Leaf(c)])])])
  {
    ShuntHigherRankFirst(a, m, b, n, c);
    BuildRightNested(a, m, b, n, c);
  }

  /** Postfix `a u b n`, with `u` unary, builds `n(u(a), b)`. */
  lemma BuildUnaryOperand(u: Token, a: Token, n: Token, b: Token)
    requires a.IsData() && b.IsData() && u.kind == UnaryOperator && n.kind == Operator
    ensures Build([], [a, u, b, n]) == Ok([Node(Leaf(n), [Node(Leaf(u), [Leaf(a)]), Leaf(b)])])
  {
    var neg := Node(Leaf(u), [Leaf(a)]);
    assert [a, u, b, n] == [a] + ([u] + [b, n]);
    PushCons([], a, [u] + [b, n]);
    assert [] + [Leaf(a)] == [] + [Leaf(a)];
    UnaryTakesOne([], Leaf(a), u);
    BuildCons([] + [Leaf(a)], u, [b, n], [] + [neg]);
    assert [b, n] == [b, n] + [];
    BuildBinary([], neg, b, n, []);
    assert [] + [Node(Leaf(n), [neg, Leaf(b)])] == [Node(Leaf(n), [neg, Leaf(b)])];
  }

  /** `-3+4` shape: a leading operator is unary and binds only its operand: `n(unary m(a), b)`. */
  lemma AstUnaryThenBinary(m: Token, a: Token, n: Token, b: Token)
    requires a.IsData() && b.IsData() && m.kind == Operator && n.kind == Operator
    requires ShuntPrecedence(m.raw).Some? && ShuntPrecedence(n.raw).Some?
    requires ShuntPrecedence(m.raw).value >= ShuntPrecedence(n.raw).value
    ensures AstOf(Stream([m, a, n, b], None))
      == Ok([Node(Leaf(n), [Node(Leaf(m.(kind := UnaryOperator)), [Leaf(a)]), Leaf(b)])])
  {
    ShuntUnaryThenBinary(m, a, n, b);
    BuildUnaryOperand(m.(kind := UnaryOperator), a, n, b);
  }

  /** `3 4`: two operands side by side are two trees. */
  lemma AstTwoRoots(a: Token, sp: Token, b: Token)
    requires a.IsData() && b.IsData() && sp.IsBlank()
    ensures AstOf(Stream([a, sp, b], None)) == Ok([Leaf(a), Leaf(b)])
  {
    ShuntTwoOperands(a, sp, b);
    OperandsFromEmpty([a, b]);
    assert Leaves([a, b]) == [Leaf(a), Leaf(b)];
  }

  /** `f(a, b)`: the callee becomes the head and the arguments the children, in order. */
  lemma AstCallOfTwo(f: Token, p: Token, a: Token, c: Token, b: Token, q: Token)
    requires f.IsData() && a.IsData() && b.IsData()
    requires p.kind == ParenOpen && c.kind == Comma && q.kind == ParenClose
    ensures AstOf(Stream([f, p, a, c, b, q], None)) == Ok([Node(Leaf(f), [Leaf(a), Leaf(b)])])
  {
    ShuntCallOfTwo(f, p, a, c, b, q);
    BuildCallOf(f, [a, b]);
    assert [f] + [a, b] + [CallToken(Some(|[a, b]|))] == [f, a, b, CallToken(Some(2))];
    assert Leaves([a, b]) == [Leaf(a), Leaf(b)];
  }

  /** Postfix `f call_func(1)` builds a call with a nil callee and `f` as its argument. */
  lemma BuildLoneCall(f: Token)
    requires f.IsData()
    ensures Build([], [f, CallToken(Some(1))]) == Ok([Node(Nil, [Leaf(f)])])
  {
    var call := CallToken(Some(1));
    assert [f, call] == [f] + [call];
    PushCons([], f, [call]);
    assert [] + [Leaf(f)] == [Leaf(f)];
    CallWithoutCallee([Leaf(f)]);
    assert [call] == [call] + [];
    BuildCons([Leaf(f)], call, [], [Node(Nil, [Leaf(f)])]);
  }

  /** `f()`: no argument list is special, so `f` becomes the only argument of a call with a nil callee. */
  lemma AstEmptyCall(f: Token, p: Token, q: Token)
    requires f.IsData() && p.kind == ParenOpen && q.kind == ParenClose
    ensures AstOf(Stream([f, p, q], None)) == Ok([Node(Nil, [Leaf(f)])])
  {
    ShuntEmptyCall(f, p, q);
    BuildLoneCall(f);
  }

  /** `[a, b]`: the range node has both elements as children, in order. */
  lemma AstRangeOfTwo(o: Token, a: Token, c: Token, b: Token, t: Token)
    requires a.IsData() && b.IsData() && o.kind == RangeOpen && c.kind == Comma && t.kind == RangeClose
    requires o.raw.Text? && t.raw.Text?
    ensures AstOf(Stream([o, a, c, b, t], None))
      == Ok([Node(Leaf(Token(Text(o.raw.s + t.raw.s), AssignRange, o.at)), [Leaf(a), Leaf(b)])])
  {
    ShuntRangeOfTwo(o, a, c, b, t);
    BuildRangeOf([a, b], Token(Text(o.raw.s + t.raw.s), AssignRange, o.at));
    assert [a, b] + [MakeAtom(Some(|[a, b]|))] + [Token(Text(o.raw.s + t.raw.s), AssignRange, o.at)]
      == [a, b, MakeAtom(Some(2)), Token(Text(o.raw.s + t.raw.s), AssignRange, o.at)];
    assert Leaves([a, b]) == [Leaf(a), Leaf(b)];
  }

  /** A leading `(` makes `ast` raise. */
  lemma AstLeadingParen(p: Token, rest: seq<Token>)
    requires p.kind == ParenOpen
    ensures AstOf(Stream([p] + rest, None)) == Err(NoPreviousToken)
  {
    ShuntLeadingParen(p, rest);
  }

  /** `1*2//3` shape: `//` meeting a stacked operator makes `ast` raise. */
  lemma AstUnrankedAfterOperator(a: Token, m: Token, b: Token, d: Token, c: Token)
    requires a.IsData() && b.IsData() && m.kind == Operator && d.kind == Operator
    requires ShuntPrecedence(d.raw).None?
    ensures AstOf(Stream([a, m, b, d, c], None)) == Err(MissingPrecedence)
  {
    ShuntUnrankedAfterOperator(a, m, b, d, c);
    OperandsFromEmpty([a, b]);
  }

  /** One more token after a prefix the builder accepts. */
  lemma BuildAppendOne(stack: seq<Tree>, ts: seq<Token>, mid: seq<Tree>, t: Token)
    requires Build(stack, ts) == Ok(mid)
    ensures Build(stack, ts + [t]) == Build(mid, [t])
  {
    BuildAppend(stack, ts, [t]);
  }

  // ---------------------------------------------------------------------
  // With the engine's own table

  function Num(s: string): Token { Token(Text(s), Number, None) }
  function Op(s: string): Token { Token(Text(s), Operator, None) }

  /** `1-2-3` is `-(-(1, 2), 3)`. */
  lemma OneMinusTwoMinusThree()
    ensures AstOf(Stream([Num("1"), Op("-"), Num("2"), Op("-"), Num("3")], None))
      == Ok([Node(Leaf(Op("-")), [Node(Leaf(Op("-")), [Leaf(Num("1")), Leaf(Num("2"))]), Leaf(Num("3"))])])
  {
    EngineTable();
    AstLeftAssociative(Num("1"), Op("-"), Num("2"), Op("-"), Num("3"));
  }

  /** `1+2*3` is `+(1, *(2, 3))`. */
  lemma OnePlusTwoTimesThree()
    ensures AstOf(Stream([Num("1"), Op("+"), Num("2"), Op("*"), Num("3")], None))
      == Ok([Node(Leaf(Op("+")), [Leaf(Num("1")), Node(Leaf(Op("*")), [Leaf(Num("2")), Leaf(Num("3"))])])])
  {
    EngineTable();
    AstHigherRankFirst(Num("1"), Op("+"), Num("2"), Op("*"), Num("3"));
  }

  /** `-3+4` is `+(unary -(3), 4)`. */
  lemma MinusThreePlusFour()
    ensures AstOf(Stream([Op("-"), Num("3"), Op("+"), Num("4")], None))
      == Ok([Node(Leaf(Op("+")), [Node(Leaf(Token(Text("-"), UnaryOperator, None)), [Leaf(Num("3"))]), Leaf(Num("4"))])])
  {
    EngineTable();
    AstUnaryThenBinary(Op("-"), Num("3"), Op("+"), Num("4"));
  }

  /** `1*2//3` raises: the engine's table has no `//`. */
  lemma FloorDivisionAfterProductRaises()
    ensures AstOf(Stream([Num("1"), Op("*"), Num("2"), Op("//"), Num("3")], None)) == Err(MissingPrecedence)
  {
    EngineTable();
    AstUnrankedAfterOperator(Num("1"), Op("*"), Num("2"), Op("//"), Num("3"));
  }
}
