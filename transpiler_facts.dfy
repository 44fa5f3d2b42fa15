/**
 * What `transpile` promises: the depth it restores, the order it renders
 * children in, the forms of calls, operators, ranges, words and blocks, and
 * what `each` yields.
 */
module TranspilerFacts {
  import opened Wrappers
  import opened Faults
  import opened Tokens
  import opened Ast
  import opened Operators
  import Lexer
  import opened RubyText
  import opened Leaves
  import opened Transpiler

  // ---------------------------------------------------------------------
  // Children

  /** Rendering the children succeeds exactly when every child does from the same depth, and gives their values in order. */
  lemma {:induction false} RenderAllPointwise(ts: seq<Tree>, d: nat)
    ensures RenderAll(ts, d).values.Ok? <==> forall i :: 0 <= i < |ts| ==> Render(ts[i], d).value.Ok?
    ensures RenderAll(ts, d).values.Ok? ==>
      forall i :: 0 <= i < |ts| ==> RenderAll(ts, d).values.value[i] == Render(ts[i], d).value.value
  {
    if ts != [] {
      RenderAllPointwise(ts[1..], d);
      assert forall i :: 1 <= i < |ts| ==> ts[i] == ts[1..][i - 1];
    }
  }

  /** The texts of children that all render from depth `d`. */
  function ChildTexts(ts: seq<Tree>, d: nat): (r: seq<string>)
    requires forall i :: 0 <= i < |ts| ==> Render(ts[i], d).value.Ok?
    ensures |r| == |ts|
  {
    seq(|ts|, i requires 0 <= i < |ts| && Render(ts[i], d).value.Ok? => Interp(Render(ts[i], d).value.value))
  }

  lemma ChildTextsAreTexts(ts: seq<Tree>, d: nat)
    requires forall i :: 0 <= i < |ts| ==> Render(ts[i], d).value.Ok?
    ensures RenderAll(ts, d).values.Ok? && Texts(RenderAll(ts, d).values.value) == ChildTexts(ts, d)
  {
    RenderAllPointwise(ts, d);
  }

  /** A node whose head is a node calls the rendered head on the rendered children. */
  lemma NodeHeadIsCall(h: Tree, cs: seq<Tree>, d: nat)
    requires h.Node? && Render(h, d).value.Ok?
    requires RenderAll(cs, d).values.Ok?
    ensures Render(Node(h, cs), d) ==
      Outcome(Ok(StrValue(Call("call_func", Interp(Render(h, d).value.value) + ", " + Join(Texts(RenderAll(cs, d).values.value), ", ")))), d)
  {
  }

  /** A token head of a kind no form handles raises before any child is rendered, leaving the depth alone. */
  lemma UnhandledHeadRaises(t: Token, cs: seq<Tree>, d: nat)
    requires t.kind !in {Operator, OpQuote, UnaryOperator, AssignRange, Word, MakeBlock}
    ensures Render(Node(Leaf(t), cs), d) == Outcome(Err(Unhandled), d)
  {
  }

  /** A tree that is neither a token nor a node (nil, an Array) is handed to `compile_leaf`, which has no `type` to ask. */
  lemma NonNodeHasNoType(t: Tree, d: nat)
    requires t.Nil? || t.List?
    ensures Render(t, d) == Outcome(Err(NoMethod), d)
    ensures Render(Node(t, []), d) == Outcome(Err(NoMethod), d)
  {
  }

  // ---------------------------------------------------------------------
  // Operators

  /** The lexemes `transpile_operator` writes between the operands. */
  predicate InfixLexeme(op: string) {
    op == "*" || op == "+" || op == "/" || op == "-" || op == "%" || op == "<" || op == ">" || op == "<=" || op == ">="
    || op == "\U{2265}" || op == "\U{2264}" || op == "\U{2260}"
    || op == "and" || op == "\U{2227}" || op == "or" || op == "\U{2228}" || op == "not" || op == "\U{00AC}"
    || op == "=" || op == "/="
  }

  /** The lexemes `transpile_operator` turns into a call of a runtime function. */
  predicate CallLexeme(op: string) {
    op == "//" || op == "@" || op == "&"
    || op == "from" || op == "\U{21A6}" || op == "over" || op == "\U{2190}" || op == "on" || op == "\U{2192}"
    || op == "onto" || op == "\U{21F4}" || op == "^"
    || op == "<_" || op == "\U{227A}" || op == "_>" || op == "\U{227B}" || op == "\U{22A1}"
    || op == "\U{229E}" || op == "\U{2211}" || op == "\U{229F}" || op == "\U{22A0}" || op == "\U{220F}"
    || op == "|" || op == "in" || op == "\U{2208}" || op == "!in" || op == "\U{2209}" || op == "."
    || op == "=~" || op == "\U{2248}" || op == "<<" || op == "\U{226A}" || op == "<<<" || op == "\U{2AF7}"
    || op == "<~" || op == "\U{2272}" || op == ">>" || op == "\U{226B}" || op == ">~" || op == "\U{2273}"
    || op == ">>>" || op == "\U{2AF8}" || op == "\U{2191}" || op == "\U{2193}"
    || op == "\U{221A}" || op == "./" || op == "$"
  }

  /** A lexeme some `when` of `transpile_operator` names, the assignments aside. */
  predicate KnownBinary(op: string) {
    InfixLexeme(op) || CallLexeme(op)
  }

  /** A lexeme some `when` of `transpile_unaryoperator` names. */
  predicate KnownUnary(op: string) {
    op == "-" || op == "~" || op == "@" || op == "\U{221A}" || op == "./" || op == "\U{221B}"
    || op == "\U{2191}" || op == "\U{2193}" || op == "." || op == "!" || op == "*" || op == "not" || op == "\U{00AC}"
    || op == "\U{229E}" || op == "\U{2211}" || op == "\U{229F}" || op == "\U{22A0}" || op == "\U{220F}" || op == "\U{22A1}"
  }

  lemma InfixLexemeRenders(op: string, mapped: seq<string>)
    requires InfixLexeme(op)
    ensures BinaryOp(op, mapped).Ok?
  {
    assert op in RubyOperators || op in RubyOperatorAliases
      || op in {"and", "\U{2227}", "or", "\U{2228}", "not", "\U{00AC}", "=", "/="};
  }

  lemma CallLexemeRenders(op: string, mapped: seq<string>)
    requires CallLexeme(op)
    ensures BinaryOp(op, mapped).Ok?
  {
    assert op in BinaryCalls
      || op in {"onto", "\U{21F4}", "\U{22A1}", "!in", "\U{2209}", "\U{2191}", "\U{2193}"};
  }

  /** Every lexeme a `when` of `transpile_operator` names renders. */
  lemma KnownBinaryRenders(op: string, mapped: seq<string>)
    requires KnownBinary(op)
    ensures BinaryOp(op, mapped).Ok?
  {
    if InfixLexeme(op) {
      InfixLexemeRenders(op, mapped);
    } else {
      CallLexemeRenders(op, mapped);
    }
  }

  /** Any other lexeme, the assignments aside, raises `NoOperatorException`. */
  lemma UnknownBinaryRaises(op: string, mapped: seq<string>)
    requires !KnownBinary(op) && op !in SetVarOps
    ensures BinaryOp(op, mapped) == Err(NoOperator)
  {
  }

  /** Every lexeme a `when` of `transpile_unaryoperator` names renders. */
  lemma KnownUnaryRenders(op: string, mapped: seq<string>)
    requires KnownUnary(op)
    ensures UnaryOp(op, mapped).Ok?
  {
    assert op in RubyUnaryOperators || op in UnaryCalls || op in {"\U{2191}", "\U{2193}", "not", "\U{00AC}"};
  }

  /** Any other lexeme raises `NoOperatorException`. */
  lemma UnknownUnaryRaises(op: string, mapped: seq<string>)
    requires !KnownUnary(op)
    ensures UnaryOp(op, mapped) == Err(NoOperator)
  {
  }

  lemma JoinTwo(x: string, y: string, sep: string)
    ensures Join([x, y], sep) == x + sep + y
  {
    assert [x, y][1..] == [y];
  }

  /** Ruby's own operators sit between the operands. */
  lemma InfixOperators(p: string, q: string)
    ensures forall op <- RubyOperators :: BinaryOp(op, [p, q]) == Ok(p + op + q)
  {
    forall op <- RubyOperators ensures Join([p, q], op) == p + op + q {
      JoinTwo(p, q, op);
    }
  }

  /** The aliases are written in Ruby's spelling. */
  lemma AliasedOperators(p: string, q: string)
    ensures BinaryOp("\U{2260}", [p, q]) == Ok(p + "!=" + q)
    ensures BinaryOp("\U{2265}", [p, q]) == Ok(p + ">=" + q)
    ensures BinaryOp("\U{2264}", [p, q]) == Ok(p + "<=" + q)
  {
    JoinTwo(p, q, "!=");
    JoinTwo(p, q, ">=");
    JoinTwo(p, q, "<=");
  }

  /** `=` compares with `==`. */
  lemma EqualsOperator(p: string, q: string)
    ensures BinaryOp("=", [p, q]) == Ok(p + "==" + q)
  {
    JoinTwo(p, q, "==");
  }

  /** `/=` compares with `!=`. */
  lemma NotEqualsOperator(p: string, q: string)
    ensures BinaryOp("/=", [p, q]) == Ok(p + "!=" + q)
  {
    JoinTwo(p, q, "!=");
  }

  /** `⊡` joins its operands in reverse order. */
  lemma TidyJoinReverses(x: string, y: string)
    ensures BinaryOp("\U{22A1}", [x, y]) == Ok(Call("tidy_join", y + ", " + x))
  {
    assert Reversed([x, y]) == [y, x];
    JoinTwo(y, x, ", ");
  }

  /** Every lexeme the lexer knows as an operator renders as a binary operator. */
  lemma LexedOperatorsRender(mapped: seq<string>)
    ensures forall op <- OperatorList :: BinaryOp(op, mapped).Ok?
  {
    forall op <- OperatorList ensures BinaryOp(op, mapped).Ok? {
      KnownBinaryRenders(op, mapped);
    }
  }

  /** As prefixes, `+`, `/` and `//` raise; `-`, `*` and `@` render. */
  lemma LexedUnaryOperators(mapped: seq<string>)
    ensures forall op <- OperatorList :: UnaryOp(op, mapped).Err? <==> op in {"+", "/", "//"}
  {
    forall op <- OperatorList ensures UnaryOp(op, mapped).Err? <==> op in {"+", "/", "//"} {
      if op in {"+", "/", "//"} {
        UnknownUnaryRaises(op, mapped);
      } else {
        KnownUnaryRenders(op, mapped);
      }
    }
  }

  /** `~` has a `when` of its own (`op_tilde`), but `RUBY_UNARY_OPERATORS` catches it first: it stays a prefix. */
  lemma TildeIsPrefix(mapped: seq<string>)
    ensures "~" in UnaryCalls && UnaryCalls["~"] == "op_tilde"
    ensures UnaryOp("~", mapped) == Ok("~" + Join(mapped, ""))
  {
  }

  // ---------------------------------------------------------------------
  // Assignments

  /** `name := value` stores the value under the name's mangled spelling; `.=` stores it locally. */
  lemma SetVarForm(n: Token, v: Tree, d: nat)
    requires n.raw.Text?
    requires Render(v, d).value.Ok?
    ensures RenderSetVar(":=", [Leaf(n), v], d) ==
      Outcome(Ok(StrValue(Call("set_var", Inspect(FixVarname(n.raw.s)) + ", " + Interp(Render(v, d).value.value)))), d)
    ensures RenderSetVar(".=", [Leaf(n), v], d) ==
      Outcome(Ok(StrValue(Call("set_var_local", Inspect(FixVarname(n.raw.s)) + ", " + Interp(Render(v, d).value.value)))), d)
  {
    assert [Leaf(n), v][1] == v;
  }

  /** An assignment with fewer than two operands, or whose target is not a token, raises. */
  lemma SetVarNeedsNameAndValue(op: string, cs: seq<Tree>, d: nat)
    requires |cs| < 2 || !cs[0].Leaf?
    ensures RenderSetVar(op, cs, d).value.Err?
  {
  }

  // ---------------------------------------------------------------------
  // Ranges

  /** `]` first excludes the lower end, `[` second excludes the upper end. */
  lemma RangeBrackets()
    ensures RangeFlags(Text("[]")) == Ok((false, false))
    ensures RangeFlags(Text("][")) == Ok((true, true))
    ensures RangeFlags(Text("]]")) == Ok((true, false))
    ensures RangeFlags(Text("[[")) == Ok((false, true))
  {
  }

  /** A range takes two operands (step 1) or three (the step in the middle); any other count raises. */
  lemma RangeFormOperands(s: string, mapped: seq<string>)
    ensures RangeForm(Text(s), mapped).Ok? <==> |mapped| == 2 || |mapped| == 3
  {
  }

  /** The closed range `[a, b]` with step 1, and the open range `]a, b[` with its step in the middle. */
  lemma RangeFormExample(a: string, st: string, b: string)
    ensures RangeForm(Text("[]"), [a, b]) == Ok(Call("tidy_range", a + ", " + b + ", 1, " + "false, false"))
    ensures RangeForm(Text("]["), [a, st, b]) == Ok(Call("tidy_range", a + ", " + b + ", " + st + ", " + "true, true"))
  {
    assert BoolText(false) + ", " + BoolText(false) == "false, false";
    assert BoolText(true) + ", " + BoolText(true) == "true, true";
  }

  // ---------------------------------------------------------------------
  // Words

  /** `Q` is a conditional expression, `nil` when the third operand is missing. */
  lemma QuestionForm(a: string, b: string, c: string)
    ensures WordForm(Text("Q"), [a, b]) == "(" + "(" + a + ")" + " ? " + "(" + b + ")" + " : " + "nil" + ")"
    ensures WordForm(Text("Q"), [a, b, c]) == "(" + "(" + a + ")" + " ? " + "(" + b + ")" + " : " + "(" + c + ")" + ")"
  {
    assert Parenthesised([a, b]) == ["(" + a + ")", "(" + b + ")"];
    assert Parenthesised([a, b, c]) == ["(" + a + ")", "(" + b + ")", "(" + c + ")"];
  }

  /** `if` has an `else` part only when it has a third operand. */
  lemma IfForm(c: string, t: string, o: string)
    ensures WordForm(Text("if"), [c, t]) == "(if (" + c + ")" + "; " + t + "; " + "end); "
    ensures WordForm(Text("if"), [c, t, o]) == "(if (" + c + ")" + "; " + t + "; " + "else; " + o + "; " + "end); "
  {
    var head := "(if (" + c + ")" + "; " + t + "; ";
    assert WordForm(Text("if"), [c, t]) == head + "" + "end)" + "; ";
    assert WordForm(Text("if"), [c, t, o]) == head + ("else" + "; " + o + "; ") + "end)" + "; ";
  }

  /** `while` runs the other operands as its body. */
  lemma WhileForm(c: string, b: string)
    ensures WordForm(Text("while"), [c, b]) == "(while (" + c + "); " + b + "; end)"
  {
    assert [c, b][1..] == [b];
  }

  /** Any other word calls the function of that name, its name written as a string. */
  lemma WordCallQuotesName(name: string, mapped: seq<string>)
    requires name != "break" && name != "Q" && name != "if" && name != "while"
    requires Lexer.AllWordChars(name)
    ensures WordForm(Text(name), mapped) == "call_func(\"" + name + "\", " + Join(mapped, ", ") + ")"
  {
    InspectWord(name);
  }

  // ---------------------------------------------------------------------
  // Blocks

  /** The parameters mangle one by one; an Integer or nil parameter stops the block. */
  lemma {:induction false} FixAllPointwise(raws: seq<Raw>)
    ensures FixAll(raws).Ok? <==> forall i :: 0 <= i < |raws| ==> raws[i].Text?
    ensures FixAll(raws).Ok? ==>
      forall i :: 0 <= i < |raws| ==> raws[i].Text? && FixAll(raws).value[i] == FixVarname(raws[i].s)
  {
    if raws != [] {
      FixAllPointwise(raws[1..]);
      assert forall i :: 1 <= i < |raws| ==> raws[i] == raws[1..][i - 1];
    }
  }

  /** No block parameter is spelled like a reserved word of Ruby. */
  lemma BlockParamsNotReserved(raws: seq<Raw>)
    requires FixAll(raws).Ok?
    ensures forall n <- FixAll(raws).value :: n !in Reserved
  {
    FixAllPointwise(raws);
  }

  /** The statement lines of a block: one per statement, the last one assigning `result`. */
  function BodyText(texts: seq<string>, indent: string): string {
    Concat(seq(|texts|, i requires 0 <= i < |texts| => StatementLine(indent, i == |texts| - 1, texts[i])))
  }

  lemma BodyTextCons(texts: seq<string>, indent: string)
    requires texts != []
    ensures BodyText(texts, indent) == StatementLine(indent, |texts| == 1, texts[0]) + BodyText(texts[1..], indent)
  {
    var lines := seq(|texts|, i requires 0 <= i < |texts| => StatementLine(indent, i == |texts| - 1, texts[i]));
    var rest := texts[1..];
    assert lines[1..] == seq(|rest|, i requires 0 <= i < |rest| => StatementLine(indent, i == |rest| - 1, rest[i]));
  }

  /**
   * A block's body renders its statements as the children of a node would
   * be, each from the block's depth; it fails if one of them raises or is
   * nil, and otherwise writes one line per statement.
   */
  lemma {:induction false} BodyIsStatements(items: seq<Tree>, d: nat, indent: string)
    ensures RenderBody(items, d, indent).value.Ok? <==>
      RenderAll(items, d).values.Ok? && forall v <- RenderAll(items, d).values.value :: v.StrValue?
    ensures RenderBody(items, d, indent).value.Ok? ==>
      RenderBody(items, d, indent).value.value.s == BodyText(Texts(RenderAll(items, d).values.value), indent)
  {
    if items != [] {
      BodyIsStatements(items[1..], d, indent);
      var all := RenderAll(items, d);
      if all.values.Ok? {
        var vs := all.values.value;
        var rest := RenderAll(items[1..], d);
        assert vs == [vs[0]] + rest.values.value;
        if forall v <- vs :: v.StrValue? {
          assert Texts(vs)[1..] == Texts(rest.values.value);
          BodyTextCons(Texts(vs), indent);
        }
      }
    }
  }

  /** A block at the top level is a plain lambda whose statements sit one level in, four blanks deep; the depth returns to 0. */
  lemma TopLevelBlock(params: Tree, items: seq<Tree>)
    requires FixAll(ParamRaws(params)).Ok? && RenderBody(items, 1, Spaces(4)).value.Ok?
    ensures RenderBlock([params, List(items)], 0) ==
      Outcome(Ok(StrValue(BlockHead(FixAll(ParamRaws(params)).value, false, Spaces(0), Spaces(4))
        + RenderBody(items, 1, Spaces(4)).value.value.s + BlockTail(false, Spaces(0), Spaces(4)))), 0)
  {
    var cs := [params, List(items)];
    assert cs[0] == params && cs[1] == List(items);
  }

  /** A block inside another saves the enclosing locals and renders its statements two levels deeper; the depth returns to where it was. */
  lemma NestedBlock(params: Tree, items: seq<Tree>, d: nat)
    requires d > 0 && FixAll(ParamRaws(params)).Ok?
    requires RenderBody(items, d + 2, Spaces(4 * (d + 2))).value.Ok?
    ensures RenderBlock([params, List(items)], d) ==
      Outcome(Ok(StrValue(BlockHead(FixAll(ParamRaws(params)).value, true, Spaces(4 * (d + 1)), Spaces(4 * (d + 2)))
        + RenderBody(items, d + 2, Spaces(4 * (d + 2))).value.value.s
        + BlockTail(true, Spaces(4 * (d + 1)), Spaces(4 * (d + 2))))), d)
  {
    var cs := [params, List(items)];
    assert cs[0] == params && cs[1] == List(items);
  }

  // ---------------------------------------------------------------------
  // each

  /**
   * `each` yields the trees' values in order, each from the depth it
   * started at; an exception stops it after the values of the trees before
   * it, and is the one `map` would raise.
   */
  lemma {:induction false} EachYieldsInOrder(trees: seq<Tree>, d: nat)
    ensures EachTree(trees, d).depth == RenderAll(trees, d).depth
    ensures EachTree(trees, d).fault ==
      (if RenderAll(trees, d).values.Err? then Some(RenderAll(trees, d).values.error) else None)
    ensures RenderAll(trees, d).values.Ok? ==> EachTree(trees, d).lines == RenderAll(trees, d).values.value
    ensures |EachTree(trees, d).lines| <= |trees|
    ensures EachTree(trees, d).fault.Some? ==> |EachTree(trees, d).lines| < |trees|
    ensures forall i :: 0 <= i < |EachTree(trees, d).lines| ==> Render(trees[i], d).value == Ok(EachTree(trees, d).lines[i])
  {
    if trees != [] {
      EachYieldsInOrder(trees[1..], d);
      var y := EachTree(trees, d);
      if Render(trees[0], d).value.Ok? {
        assert forall i :: 1 <= i < |y.lines| ==> trees[i] == trees[1..][i - 1];
      }
    }
  }

  /** `Tidy2Ruby` has no header lines: `each` yields the trees' values alone. */
  lemma EachHasNoHeader(trees: seq<Tree>, d: nat)
    ensures Each(trees, d) == EachTree(trees, d)
  {
  }
}
