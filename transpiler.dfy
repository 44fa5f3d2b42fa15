/**
 * `Tidy2Ruby#transpile` as functions of the tree and of the indentation
 * depth it starts from: what it returns (a String, nil, or the exception it
 * raises) and the depth it leaves behind. Every node kind but a block
 * renders all its children first, in order.
 */
module Transpiler {
  import opened Wrappers
  import opened Faults
  import opened Tokens
  import opened Ast
  import opened RubyText
  import opened Leaves

  // ---------------------------------------------------------------------
  // Operator tables

  /** `RUBY_OPERATORS`: lexemes Ruby spells the same way. */
  const RubyOperators: seq<string> := ["*", "+", "/", "-", "%", "<", ">", "<=", ">="]

  /** `RUBY_OPERATOR_ALIASES` */
  const RubyOperatorAliases: map<string, string> :=
    map["\U{2265}" := ">=", "\U{2264}" := "<=", "\U{2260}" := "!="]

  /** `RUBY_UNARY_OPERATORS`: prefixes Ruby spells the same way. */
  const RubyUnaryOperators: seq<string> := ["-", "~"]

  /** Binary lexemes that become a call of a runtime function on the operands. */
  const BinaryCalls: map<string, string> := map[
    "//" := "op_slashslash", "@" := "op_get", "&" := "op_bind",
    "from" := "op_from", "\U{21A6}" := "op_from",
    "over" := "op_over", "\U{2190}" := "op_over",
    "on" := "op_on", "\U{2192}" := "op_on",
    "^" := "op_caret",
    "<_" := "precedes", "\U{227A}" := "precedes",
    "_>" := "succeeds", "\U{227B}" := "succeeds",
    "\U{229E}" := "multisum", "\U{2211}" := "multisum",
    "\U{229F}" := "multidiff",
    "\U{22A0}" := "multiprod", "\U{220F}" := "multiprod",
    "|" := "op_pipeline",
    "in" := "op_in", "\U{2208}" := "op_in",
    "." := "op_dot",
    "=~" := "approx", "\U{2248}" := "approx",
    "<<" := "muchless", "\U{226A}" := "muchless",
    "<<<" := "muchmuchless", "\U{2AF7}" := "muchmuchless",
    "<~" := "approxmuchless", "\U{2272}" := "approxmuchless",
    ">>" := "muchmore", "\U{226B}" := "muchmore",
    ">~" := "approxmuchmore", "\U{2273}" := "approxmuchmore",
    ">>>" := "muchmuchmore", "\U{2AF8}" := "muchmuchmore",
    "\U{221A}" := "nroot", "./" := "nroot",
    "$" := "shape"]

  /** The assignment lexemes: `:=`/`≔` set a variable, `.=`/`⩴` set a local one. */
  const SetVarOps: set<string> := {":=", "\U{2254}", ".=", "\U{2A74}"}

  /** Unary lexemes that become a call of a runtime function on the operand list. */
  const UnaryCalls: map<string, string> := map[
    "@" := "op_get", "\U{221A}" := "tidy_sqrt", "./" := "tidy_sqrt", "\U{221B}" := "tidy_cbrt",
    "~" := "op_tilde", "." := "call_func", "!" := "fac", "*" := "*",
    "\U{229E}" := "sum", "\U{2211}" := "sum", "\U{229F}" := "diff",
    "\U{22A0}" := "prod", "\U{220F}" := "prod", "\U{22A1}" := "tidy_join"]

  /** `f(args)` */
  function Call(f: string, args: string): string {
    f + "(" + args + ")"
  }

  function Parenthesised(texts: seq<string>): (r: seq<string>)
    ensures |r| == |texts| && forall i :: 0 <= i < |texts| ==> r[i] == "(" + texts[i] + ")"
  {
    seq(|texts|, i requires 0 <= i < |texts| => "(" + texts[i] + ")")
  }

  function Truthies(texts: seq<string>): (r: seq<string>)
    ensures |r| == |texts| && forall i :: 0 <= i < |texts| ==> r[i] == Call("truthy", texts[i])
  {
    seq(|texts|, i requires 0 <= i < |texts| => Call("truthy", texts[i]))
  }

  function Reversed(texts: seq<string>): (r: seq<string>)
    ensures |r| == |texts| && forall i :: 0 <= i < |texts| ==> r[i] == texts[|texts| - 1 - i]
  {
    seq(|texts|, i requires 0 <= i < |texts| => texts[|texts| - 1 - i])
  }

  /**
   * `transpile_operator` for every lexeme but the assignments, on the
   * parenthesised operands: native lexemes and their aliases join the
   * operands, the others build a call; an unknown lexeme raises
   * `NoOperatorException`. No lexeme has two `when`s, so the order of the
   * tests is immaterial.
   */
  function BinaryOp(op: string, mapped: seq<string>): Result<string, Fault> {
    var joined := Join(mapped, ", ");
    if op in RubyOperators then Ok(Join(mapped, op))
    else if op in RubyOperatorAliases then Ok(Join(mapped, RubyOperatorAliases[op]))
    else if op == "onto" || op == "\U{21F4}" then Ok(Call("force", Call("op_on", joined)))
    else if op == "and" || op == "\U{2227}" then Ok(Join(Truthies(mapped), "&&"))
    else if op == "or" || op == "\U{2228}" then Ok(Join(Truthies(mapped), "||"))
    else if op == "not" || op == "\U{00AC}" then Ok(Join(Truthies(mapped), "&& !"))
    else if op == "=" then Ok(Join(mapped, "=="))
    else if op == "/=" then Ok(Join(mapped, "!="))
    else if op == "\U{22A1}" then Ok(Call("tidy_join", Join(Reversed(mapped), ", ")))
    else if op == "!in" || op == "\U{2209}" then Ok("!" + Call("op_in", joined))
    else if op == "\U{2191}" then Ok("get_var('UP')[" + joined + "]")
    else if op == "\U{2193}" then Ok("get_var('DOWN')[" + joined + "]")
    else if op in BinaryCalls then Ok(Call(BinaryCalls[op], joined))
    else Err(NoOperator)
  }

  /**
   * `transpile_unaryoperator` on the operands: `-` and `~` are written as
   * prefixes, the others as calls; an unknown lexeme raises
   * `NoOperatorException`.
   */
  function UnaryOp(op: string, mapped: seq<string>): Result<string, Fault> {
    var joined := Join(mapped, ", ");
    if op in RubyUnaryOperators then Ok(op + Join(mapped, ""))
    else if op == "\U{2191}" then Ok("get_var('UP')[" + joined + "]")
    else if op == "\U{2193}" then Ok("get_var('DOWN')[" + joined + "]")
    else if op == "not" || op == "\U{00AC}" then Ok("!" + Call("truthy", joined))
    else if op in UnaryCalls then Ok(Call(UnaryCalls[op], joined))
    else Err(NoOperator)
  }

  /** `head.raw[0] == "]"` and `head.raw[1] == "["`; an Integer's bits never equal a String, nil has no `[]`. */
  function RangeFlags(raw: Raw): Result<(bool, bool), Fault> {
    match raw
    case Text(s) => Ok((|s| > 0 && s[0] == ']', |s| > 1 && s[1] == '['))
    case Count(_) => Ok((false, false))
    case NilCount => Err(NoMethod)
  }

  /** `transpile_assignrange`: `tidy_range(lower, upper, step, exclude_lower, exclude_upper)`, the step 1 unless given in the middle. */
  function RangeForm(raw: Raw, mapped: seq<string>): Result<string, Fault> {
    match RangeFlags(raw)
    case Err(f) => Err(f)
    case Ok((lo, hi)) =>
      var flags := BoolText(lo) + ", " + BoolText(hi);
      if |mapped| == 2 then Ok(Call("tidy_range", mapped[0] + ", " + mapped[1] + ", 1, " + flags))
      else if |mapped| == 3 then Ok(Call("tidy_range", mapped[0] + ", " + mapped[2] + ", " + mapped[1] + ", " + flags))
      else Err(Unhandled)
  }

  /** `a` of `a, b, c = mapped`: nil, and so empty when interpolated, past the end. */
  function Nth(texts: seq<string>, i: nat): string {
    if i < |texts| then texts[i] else ""
  }

  /** `raw.inspect` for each kind of `raw`. */
  function RawInspect(raw: Raw): string {
    match raw
    case Text(s) => Inspect(s)
    case Count(n) => IntToString(n)
    case NilCount => "nil"
  }

  /** `transpile_word`: `break`, `Q`, `if` and `while` are control forms, any other name a function call. */
  function WordForm(raw: Raw, mapped: seq<string>): string {
    var sep := "; ";
    if raw == Text("break") then "raise TidyStopIteration if " + Join(Parenthesised(mapped), "&&")
    else if raw == Text("Q") then
      var p := Parenthesised(mapped);
      "(" + Nth(p, 0) + " ? " + Nth(p, 1) + " : " + (if |p| > 2 then p[2] else "nil") + ")"
    else if raw == Text("if") then
      "(if (" + Nth(mapped, 0) + ")" + sep + Nth(mapped, 1) + sep
        + (if |mapped| > 2 then "else" + sep + mapped[2] + sep else "") + "end)" + sep
    else if raw == Text("while") then
      "(while (" + Nth(mapped, 0) + ")" + sep + Join(if mapped == [] then [] else mapped[1..], sep) + sep + "end)"
    else Call("call_func", RawInspect(raw) + ", " + Join(mapped, ", "))
  }

  /** `fix_varname(raw)`: an Integer name is outside the model; nil has no `[]`. */
  function FixRaw(raw: Raw): Result<string, Fault> {
    match raw
    case Text(s) => Ok(FixVarname(s))
    case Count(_) => Err(Unmodelled)
    case NilCount => Err(NoMethod)
  }

  /** The head forms that render from the children's texts alone. */
  function HeadForm(t: Token, texts: seq<string>): Result<string, Fault>
    requires t.kind in {Operator, OpQuote, UnaryOperator, AssignRange, Word}
  {
    if t.kind == Operator then (if t.raw.Text? then BinaryOp(t.raw.s, Parenthesised(texts)) else Err(NoOperator))
    else if t.kind == UnaryOperator then (if t.raw.Text? then UnaryOp(t.raw.s, texts) else Err(NoOperator))
    else if t.kind == AssignRange then RangeForm(t.raw, texts)
    else if t.kind == Word then Ok(WordForm(t.raw, texts))
    else Err(Unmodelled)
  }

  // ---------------------------------------------------------------------
  // Blocks

  /** `params.children.map &:raw rescue []`: the raws of a node whose children are all leaves, else none. */
  function ParamRaws(params: Tree): seq<Raw> {
    if params.Node? && forall c <- params.children :: c.Leaf? then
      seq(|params.children|, i requires 0 <= i < |params.children| && params.children[i].Leaf? => params.children[i].tok.raw)
    else []
  }

  /** `params.map! { fix_varname }`, stopping at the first failure. */
  function FixAll(raws: seq<Raw>): (r: Result<seq<string>, Fault>)
    ensures r.Ok? ==> |r.value| == |raws|
  {
    if raws == [] then Ok([])
    else
      match FixRaw(raws[0])
      case Err(f) => Err(f)
      case Ok(n) =>
        match FixAll(raws[1..])
        case Err(f) => Err(f)
        case Ok(ns) => Ok([n] + ns)
  }

  /** The lambda's parameter list: the names, then `*discard`. */
  function BlockArgs(names: seq<string>): string {
    if names == [] then "*discard" else Join(names, ", ") + ", *discard"
  }

  /** One `set_var_local` line per parameter. */
  function ParamLines(names: seq<string>, indent: string): string {
    if names == [] then ""
    else indent + Call("set_var_local", Inspect(names[0]) + ", " + names[0]) + "\n" + ParamLines(names[1..], indent)
  }

  /** What a block writes before its parameters' lines. */
  function LambdaOpen(names: seq<string>, nested: bool, preindent: string, indent: string): string {
    (if nested then "(\n" + preindent + "mylocal = local_save;\n" else "")
      + preindent + "lambda { |" + BlockArgs(names) + "|\n"
      + (if nested then indent + "local_adopt mylocal\n" else "")
      + indent + "local_descend\n"
  }

  /** Everything a block writes before its statements. */
  function BlockHead(names: seq<string>, nested: bool, preindent: string, indent: string): string {
    LambdaOpen(names, nested, preindent, indent) + ParamLines(names, indent)
  }

  /** Everything a block writes after its statements. */
  function BlockTail(nested: bool, preindent: string, indent: string): string {
    indent + "local_ascend\n"
      + (if nested then indent + "local_evict\n" else "")
      + indent + "result\n"
      + preindent + "}"
      + (if nested then ")" else "")
  }

  /** The line of a block statement: only the last one assigns `result`. */
  function StatementLine(indent: string, last: bool, text: string): string {
    indent + (if last then "result = " else "") + text + "\n"
  }

  // ---------------------------------------------------------------------
  // transpile

  /** A call's value and the `@depth` it leaves. */
  datatype Outcome = Outcome(value: Result<Value, Fault>, depth: nat)

  /** The values of a `map` over children and the `@depth` it leaves. */
  datatype Outcomes = Outcomes(values: Result<seq<Value>, Fault>, depth: nat)

  /**
   * `transpile(t)` from depth `d`. A node whose head is a node is a call of
   * the rendered head; a token head selects the form by its kind; anything
   * that is not a node is a leaf. A call that returns leaves the depth as
   * it found it; a raise leaves it where the raise happened.
   */
  function Render(t: Tree, d: nat): (r: Outcome)
    ensures r.value.Ok? ==> r.depth == d
    decreases t
  {
    match t
    case Leaf(tok) => Outcome(CompileLeaf(tok), d)
    case Nil => Outcome(Err(NoMethod), d)
    case List(_) => Outcome(Err(NoMethod), d)
    case Node(h, cs) =>
      if h.Node? then
        var comp := Render(h, d);
        if comp.value.Err? then comp
        else
          var all := RenderAll(cs, comp.depth);
          if all.values.Err? then Outcome(Err(all.values.error), all.depth)
          else Outcome(Ok(StrValue(Call("call_func", Interp(comp.value.value) + ", " + Join(Texts(all.values.value), ", ")))), all.depth)
      else if !h.Leaf? then Outcome(Err(NoMethod), d)
      else if h.tok.kind == MakeBlock then RenderBlock(cs, d)
      else if h.tok.kind !in {Operator, OpQuote, UnaryOperator, AssignRange, Word} then Outcome(Err(Unhandled), d)
      else
        var all := RenderAll(cs, d);
        if all.values.Err? then Outcome(Err(all.values.error), all.depth)
        else if h.tok.kind == Operator && h.tok.raw.Text? && h.tok.raw.s in SetVarOps then
          RenderSetVar(h.tok.raw.s, cs, all.depth)
        else Outcome(Lift(HeadForm(h.tok, Texts(all.values.value))), all.depth)
  }

  /** `set_var(name, value)` or `set_var_local(name, value)`: the name's mangled raw and the second child rendered again. */
  function RenderSetVar(op: string, cs: seq<Tree>, d: nat): (r: Outcome)
    ensures r.value.Ok? ==> r.depth == d
    decreases cs
  {
    var f := if op == ":=" || op == "\U{2254}" then "set_var" else "set_var_local";
    if cs == [] || !cs[0].Leaf? then Outcome(Err(NoMethod), d)
    else
      match FixRaw(cs[0].tok.raw)
      case Err(e) => Outcome(Err(e), d)
      case Ok(name) =>
        if |cs| < 2 then Outcome(Err(NoMethod), d)
        else
          var v := Render(cs[1], d);
          if v.value.Err? then v
          else Outcome(Ok(StrValue(Call(f, Inspect(name) + ", " + Interp(v.value.value)))), v.depth)
  }

  /** `children.map { transpile }`, stopping at the first raise. */
  function RenderAll(ts: seq<Tree>, d: nat): (r: Outcomes)
    ensures r.values.Ok? ==> r.depth == d && |r.values.value| == |ts|
    decreases ts
  {
    if ts == [] then Outcomes(Ok([]), d)
    else
      var first := Render(ts[0], d);
      if first.value.Err? then Outcomes(Err(first.value.error), first.depth)
      else
        var rest := RenderAll(ts[1..], first.depth);
        if rest.values.Err? then rest
        else Outcomes(Ok([first.value.value] + rest.values.value), rest.depth)
  }

  /**
   * `transpile_block`: a lambda over the mangled parameters whose
   * statements are rendered one level deeper (two when the block is nested
   * in another), and whose last statement is its result.
   */
  function RenderBlock(cs: seq<Tree>, d: nat): (r: Outcome)
    ensures r.value.Ok? ==> r.depth == d
    decreases cs
  {
    match FixAll(ParamRaws(if cs == [] then Nil else cs[0]))
    case Err(f) => Outcome(Err(f), d)
    case Ok(names) =>
      var nested := d != 0;
      var d1 := if nested then d + 1 else d;
      var d2 := d1 + 1;
      var preindent, indent := Spaces(4 * d1), Spaces(4 * d2);
      if |cs| < 2 || cs[1].Nil? || cs[1].Leaf? then Outcome(Err(NoMethod), d2)
      else if cs[1].Node? then Outcome(Err(Unmodelled), d2)
      else
        var body := RenderBody(cs[1].items, d2, indent);
        if body.value.Err? then body
        else
          Outcome(Ok(StrValue(BlockHead(names, nested, preindent, indent) + Interp(body.value.value) + BlockTail(nested, preindent, indent))),
            body.depth - (if nested then 2 else 1))
  }

  /** `body.each_with_index`: one line per statement; a statement that is nil cannot be appended. */
  function RenderBody(items: seq<Tree>, d: nat, indent: string): (r: Outcome)
    ensures r.value.Ok? ==> r.depth == d && r.value.value.StrValue?
    decreases items
  {
    if items == [] then Outcome(Ok(StrValue("")), d)
    else
      var first := Render(items[0], d);
      if first.value.Err? then first
      else if first.value.value.NilValue? then Outcome(Err(NilAppended), first.depth)
      else
        var line := StatementLine(indent, |items| == 1, first.value.value.s);
        var rest := RenderBody(items[1..], first.depth, indent);
        if rest.value.Err? then rest
        else Outcome(Ok(StrValue(line + rest.value.value.s)), rest.depth)
  }

  // ---------------------------------------------------------------------
  // each

  /** `HEADER`: `Tidy2Ruby` inherits the empty one. */
  const Header: seq<string> := []

  /** What `each` hands its block, the exception that stopped it (if any), and the depth it leaves. */
  datatype Yield = Yield(lines: seq<Value>, fault: Option<Fault>, depth: nat)

  /** `@trees.each { |tree| block[transpile tree] }` from depth `d`. */
  function EachTree(trees: seq<Tree>, d: nat): (y: Yield)
    ensures y.fault.None? ==> y.depth == d && |y.lines| == |trees|
    decreases trees
  {
    if trees == [] then Yield([], None, d)
    else
      var first := Render(trees[0], d);
      if first.value.Err? then Yield([], Some(first.value.error), first.depth)
      else
        var rest := EachTree(trees[1..], first.depth);
        Yield([first.value.value] + rest.lines, rest.fault, rest.depth)
  }

  function HeaderValues(): (r: seq<Value>)
    ensures |r| == |Header|
  {
    seq(|Header|, i requires 0 <= i < |Header| => StrValue(Header[i]))
  }

  /** `each`: the header lines, then one value per tree. */
  function Each(trees: seq<Tree>, d: nat): Yield {
    var y := EachTree(trees, d);
    Yield(HeaderValues() + y.lines, y.fault, y.depth)
  }
}
