/**
 * The `Tidy2Ruby` object: the trees of a program and the `@depth` its
 * `transpile` calls raise and lower as they enter and leave blocks. Every
 * method is proved against the functions of module Transpiler, from the
 * depth it finds to the depth it leaves.
 */
module RubyTarget {
  import opened Wrappers
  import opened Faults
  import opened Tokens
  import Lexer
  import opened Tokenizers
  import opened Ast
  import opened RubyText
  import opened Leaves
  import opened Transpiler

  /** The values of the children before `rest`, then those of `rest`, or `rest`'s raise. */
  function After(done: seq<Value>, rest: Outcomes): (r: Outcomes)
    ensures r.depth == rest.depth && (r.values.Ok? <==> rest.values.Ok?)
  {
    if rest.values.Err? then rest else Outcomes(Ok(done + rest.values.value), rest.depth)
  }

  lemma AfterTwice(done: seq<Value>, v: Value, rest: Outcomes)
    ensures After(done, After([v], rest)) == After(done + [v], rest)
  {
    if rest.values.Ok? {
      assert done + ([v] + rest.values.value) == (done + [v]) + rest.values.value;
    }
  }

  /** The text written before `rest`, then `rest`'s text, or `rest`'s raise. */
  function TextAfter(done: string, rest: Outcome): (r: Outcome)
    ensures r.depth == rest.depth && (r.value.Ok? <==> rest.value.Ok?)
  {
    if rest.value.Err? then rest else Outcome(Ok(StrValue(done + Interp(rest.value.value))), rest.depth)
  }

  lemma TextAfterNothing(rest: Outcome)
    requires rest.value.Ok? ==> rest.value.value.StrValue?
    ensures TextAfter("", rest) == rest
  {
    if rest.value.Ok? {
      assert "" + Interp(rest.value.value) == rest.value.value.s;
    }
  }

  lemma TextAfterTwice(res: string, line: string, rest: Outcome)
    ensures TextAfter(res, TextAfter(line, rest)) == TextAfter(res + line, rest)
  {
    if rest.value.Ok? {
      assert res + (line + Interp(rest.value.value)) == (res + line) + Interp(rest.value.value);
    }
  }

  /** What `each` handed its block before `rest`, then what `rest` hands it. */
  function YieldAfter(done: seq<Value>, rest: Yield): (r: Yield)
    ensures r.fault == rest.fault && r.depth == rest.depth
  {
    Yield(done + rest.lines, rest.fault, rest.depth)
  }

  class Tidy2Ruby {
    /** `@trees` */
    const trees: seq<Tree>
    /** `@depth`: how many blocks the current `transpile` call is inside, nested ones counting twice. */
    var depth: nat

    constructor (trees: seq<Tree>)
      ensures this.trees == trees && depth == 0
    {
      this.trees := trees;
      depth := 0;
    }

    /** `Tidy2Ruby.new(code)`: the trees `ast` builds from the lexer's tokens, or the exception it raises. */
    static method New(code: string) returns (r: Result<Tidy2Ruby, Fault>)
      ensures r.Err? <==> AstOf(Lexer.Tokenize(code)).Err?
      ensures r.Err? ==> r.error == AstOf(Lexer.Tokenize(code)).error
      ensures r.Ok? ==> fresh(r.value) && r.value.trees == AstOf(Lexer.Tokenize(code)).value && r.value.depth == 0
    {
      var lexer := new Tokenizer(code);
      var tokens := lexer.Each();
      var built := Ast.Ast(tokens);
      if built.Err? {
        return Err(built.error);
      }
      var t := new Tidy2Ruby(built.value);
      r := Ok(t);
    }

    /** `transpile(tree)`: the value of the tree and the depth left behind are those of `Render`. */
    method Transpile(t: Tree) returns (r: Result<Value, Fault>)
      modifies this
      ensures Outcome(r, depth) == Render(t, old(depth))
      decreases t
    {
      match t
      case Leaf(tok) =>
        r := CompileLeaf(tok);
      case Nil =>
        r := Err(NoMethod);
      case List(_) =>
        r := Err(NoMethod);
      case Node(h, cs) =>
        if h.Node? {
          var comp := Transpile(h);
          if comp.Err? {
            return comp;
          }
          var mapped := TranspileAll(cs);
          if mapped.Err? {
            return Err(mapped.error);
          }
          r := Ok(StrValue(Call("call_func", Interp(comp.value) + ", " + Join(Texts(mapped.value), ", "))));
        } else if !h.Leaf? {
          r := Err(NoMethod);
        } else if h.tok.kind == MakeBlock {
          r := TranspileBlock(cs);
        } else if h.tok.kind !in {Operator, OpQuote, UnaryOperator, AssignRange, Word} {
          r := Err(Unhandled);
        } else {
          var mapped := TranspileAll(cs);
          if mapped.Err? {
            return Err(mapped.error);
          }
          if h.tok.kind == Operator && h.tok.raw.Text? && h.tok.raw.s in SetVarOps {
            r := TranspileSetVar(h.tok.raw.s, cs);
          } else {
            r := Lift(HeadForm(h.tok, Texts(mapped.value)));
          }
        }
    }

    /** `tree.children.map { |child| transpile child }`, one child after the other. */
    method TranspileAll(ts: seq<Tree>) returns (r: Result<seq<Value>, Fault>)
      modifies this
      ensures Outcomes(r, depth) == RenderAll(ts, old(depth))
      decreases ts
    {
      var d := depth;
      var done: seq<Value> := [];
      var i := 0;
      assert ts[i..] == ts;
      assert RenderAll(ts, d).values.Ok? ==> done + RenderAll(ts, d).values.value == RenderAll(ts, d).values.value;
      while i < |ts|
        invariant 0 <= i <= |ts| && depth == d
        invariant RenderAll(ts, d) == After(done, RenderAll(ts[i..], d))
        decreases |ts| - i
      {
        assert ts[i..][1..] == ts[i + 1..];
        var v := Transpile(ts[i]);
        if v.Err? {
          assert RenderAll(ts[i..], d) == Outcomes(Err(v.error), depth);
          return Err(v.error);
        }
        ghost var rest := RenderAll(ts[i + 1..], d);
        assert RenderAll(ts[i..], d) == After([v.value], rest);
        AfterTwice(done, v.value, rest);
        done := done + [v.value];
        i := i + 1;
      }
      assert ts[i..] == [];
      assert done + [] == done;
      r := Ok(done);
    }

    /** The assignment forms: the target's name, mangled, and the value child transpiled once more. */
    method TranspileSetVar(op: string, cs: seq<Tree>) returns (r: Result<Value, Fault>)
      modifies this
      ensures Outcome(r, depth) == RenderSetVar(op, cs, old(depth))
      decreases cs
    {
      var f := if op == ":=" || op == "\U{2254}" then "set_var" else "set_var_local";
      if cs == [] || !cs[0].Leaf? {
        return Err(NoMethod);
      }
      var name := FixRaw(cs[0].tok.raw);
      if name.Err? {
        return Err(name.error);
      }
      if |cs| < 2 {
        return Err(NoMethod);
      }
      var v := Transpile(cs[1]);
      if v.Err? {
        return v;
      }
      r := Ok(StrValue(Call(f, Inspect(name.value) + ", " + Interp(v.value))));
    }

    /**
     * `transpile_block`: one level deeper (two when nested) while the
     * statements are transpiled, and back again at the end.
     */
    method TranspileBlock(cs: seq<Tree>) returns (r: Result<Value, Fault>)
      modifies this
      ensures Outcome(r, depth) == RenderBlock(cs, old(depth))
      decreases cs
    {
      var names := FixAll(ParamRaws(if cs == [] then Nil else cs[0]));
      if names.Err? {
        return Err(names.error);
      }
      var nested := depth != 0;
      if nested {
        depth := depth + 1;
      }
      var preindent := Spaces(4 * depth);
      depth := depth + 1;
      var indent := Spaces(4 * depth);
      var head := Params(LambdaOpen(names.value, nested, preindent, indent), names.value, indent);
      if |cs| < 2 || cs[1].Nil? || cs[1].Leaf? {
        return Err(NoMethod);
      }
      if cs[1].Node? {
        return Err(Unmodelled);
      }
      ghost var inner := depth;
      var body := TranspileBody(cs[1].items, indent);
      if body.Err? {
        return Err(body.error);
      }
      assert depth == inner && RenderBody(cs[1].items, inner, indent).value == Ok(StrValue(body.value));
      if nested {
        depth := depth - 2;
      } else {
        depth := depth - 1;
      }
      r := Ok(StrValue(head + body.value + BlockTail(nested, preindent, indent)));
    }

    /** `params.each { |param| res += ... }`: one `set_var_local` line per parameter. */
    static method Params(res: string, names: seq<string>, indent: string) returns (out: string)
      ensures out == res + ParamLines(names, indent)
    {
      out := res;
      var j := 0;
      while j < |names|
        invariant 0 <= j <= |names|
        invariant out + ParamLines(names[j..], indent) == res + ParamLines(names, indent)
        decreases |names| - j
      {
        assert names[j..][1..] == names[j + 1..];
        var line := indent + Call("set_var_local", Inspect(names[j]) + ", " + names[j]) + "\n";
        assert out + ParamLines(names[j..], indent) == (out + line) + ParamLines(names[j + 1..], indent);
        out := out + line;
        j := j + 1;
      }
      assert names[j..] == [];
    }

    /** `body.each_with_index { ... res += transpile sub_tree ... }`: the statement lines, the last one assigning `result`. */
    method TranspileBody(items: seq<Tree>, indent: string) returns (r: Result<string, Fault>)
      modifies this
      ensures Outcome(if r.Ok? then Ok(StrValue(r.value)) else Err(r.error), depth) == RenderBody(items, old(depth), indent)
      decreases items
    {
      var d := depth;
      var res := "";
      var k := 0;
      assert items[k..] == items;
      TextAfterNothing(RenderBody(items, d, indent));
      while k < |items|
        invariant 0 <= k <= |items| && depth == d
        invariant RenderBody(items, d, indent) == TextAfter(res, RenderBody(items[k..], d, indent))
        decreases |items| - k
      {
        assert items[k..][1..] == items[k + 1..];
        var v := Transpile(items[k]);
        if v.Err? {
          return Err(v.error);
        }
        if v.value.NilValue? {
          return Err(NilAppended);
        }
        var line := StatementLine(indent, k + 1 == |items|, v.value.s);
        ghost var rest := RenderBody(items[k + 1..], d, indent);
        assert RenderBody(items[k..], d, indent) == TextAfter(line, rest);
        TextAfterTwice(res, line, rest);
        res := res + line;
        k := k + 1;
      }
      assert items[k..] == [];
      assert res + "" == res;
      r := Ok(res);
    }

    /** `each`: hands the block the header lines, then the value of each tree, until one raises. */
    method Each() returns (lines: seq<Value>, fault: Option<Fault>)
      modifies this
      ensures Yield(lines, fault, depth) == Transpiler.Each(trees, old(depth))
    {
      // `HEADER` is empty for `Tidy2Ruby`: its loop hands the block nothing.
      lines := HeaderValues();
      var d := depth;
      var i := 0;
      assert trees[i..] == trees;
      while i < |trees|
        invariant 0 <= i <= |trees| && depth == d
        invariant Transpiler.Each(trees, d) == YieldAfter(lines, EachTree(trees[i..], d))
        decreases |trees| - i
      {
        ghost var rest := EachTree(trees[i + 1..], d);
        assert trees[i..][1..] == trees[i + 1..];
        var v := Transpile(trees[i]);
        if v.Err? {
          assert EachTree(trees[i..], d) == Yield([], Some(v.error), depth);
          return lines, Some(v.error);
        }
        assert EachTree(trees[i..], d) == YieldAfter([v.value], rest);
        assert lines + ([v.value] + rest.lines) == (lines + [v.value]) + rest.lines;
        lines := lines + [v.value];
        i := i + 1;
      }
      assert trees[i..] == [];
      assert lines + [] == lines;
      fault := None;
    }
  }
}
