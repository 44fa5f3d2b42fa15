# Tidy front end, range runtime and Ruby code generator in Dafny

Tidy is a small expression language whose reference implementation is
written in Ruby. Source text passes through four stages:

- **Lexer.** `TidyTokenizer` is a cursor with a line, a column and a bracket toggle. Its `read_token` tries a fixed chain of alternatives at each offset.
- **Shunting-yard engine.** `shunt` keeps an operator stack, an arity stack and a call-mask stack. It turns the tokens into postfix order.
- **Tree builder.** `ast` folds the postfix stream into `ASTNode(head, children)` trees on an operand stack.
- **Code generator.** `Tidy2Ruby` turns each tree into a line of Ruby source. It keeps a block `@depth` that sets the indentation.

The runtime file `range.rb` supplies the integer logic that generated code calls:

- `TidyRange`: a stepped range with optionally excluded endpoints;
- `Enumerable#tile` and `#skip`;
- round-robin `SplicedSequence`;
- the `Character` code-point wrapper.

This project models all of that in Dafny. It proves what each stage promises.

The files follow the source's own shape:

- Object state that the source mutates is modelled as classes:
  - the tokenizer cursor (`Tokenizers.Tokenizer`);
  - the code generator's `@depth` (`RubyTarget.Tidy2Ruby`).
- The source's loops are modelled as methods with loop invariants:
  - `flush`, the precedence pop loop, `shunt` and `ast`;
  - `TidyRange#each`, `skip` and `SplicedSequence#each`;
  - the parameter and statement loops of `transpile_block`.
- Each method is proved equal to a specification function.
- The properties are proved about those functions as lemmas.

Ruby exceptions are modelled as `Fault` values. They are carried through `Result`, or through a `Stream` holding the items produced before the raise.

Where the code and its design notes disagree, the model follows the code:

- An unclosed `(` raises nothing. The engine emits the `paren_open` token at the end, and `ast` ignores it.
- A number token never takes a `-` after its `e`. The number alternative reads digits and the separators `b`, `e` and `.`, then terminators.
- The infinity alternative compares one character with a three-character literal, so it never fires (`Lexer.NoInfinityToken`).
- The shunting engine ranks operators with its own four-entry table, not with `Operators::PRECEDENCE`:
  - `//` and `@` have no rank there;
  - comparing with a missing rank raises.

## Model

| member | source | states |
|---|---|---|
| Operators.OperatorListIsPermutation | src/operators.rb:2-10 | `OPERATORS` holds each key of `PRECEDENCE` exactly once (same multiset) |
| Operators.OperatorListMembers | src/operators.rb:2-10 | a string is in `OPERATORS` exactly when it is a key of the table |
| Operators.OperatorListIsSorted | src/operators.rb:10 | `OPERATORS` is ordered by non-increasing lexeme length |
| Operators.LongerComesFirst | src/operators.rb:10 | in a length-sorted list a longer lexeme sits before a shorter one |
| Operators.SlashSlashBeforeSlash | src/operators.rb:10 | `//` comes before `/` in `OPERATORS` |
| Operators.GetPrecedenceTable | src/operators.rb:12-14 | `get_precedence` is non-nil exactly for the table's keys and then returns the table value |
| Operators.PrecedenceRanking | src/operators.rb:3-8 | `*`, `/`, `//` rank 20; `+`, `-` rank 10; `@` outranks every other lexeme |
| Tokens.KindPredicates | src/parser.rb:9-33 | `data?` holds exactly for the seven value kinds; `data_like?` adds the three closers; `significant?` is `!blank?`; data and operators are disjoint |
| Streams.LineColIsRecount | src/parser.rb:60-70 | the line/column reached after `pos` advances is one plus the line feeds before `pos`, and the distance from the last line start plus one |
| Streams.LineStart | src/parser.rb:62-64 | the column restarts at the last line feed before the cursor, which lies at or before it |
| Streams.LexWithCovers | src/parser.rb:118-217 | for any sound decision procedure the tokens' raws, in order, spell the input from `p`; the only fault is a lone trailing quote |
| Streams.LexWithTiles | src/parser.rb:123-126 | every token records the offset, line and column where it begins, and each starts where the previous one ended |
| Streams.LexWithAlternates | src/parser.rb:182-186 | the bracket tokens alternate open/close starting from the toggle's state |
| Lexer.SpanIsMaximalRun | src/parser.rb:128-143 | a `while class?` loop stops at the end of the maximal run of the class |
| Lexer.SpanUnique | src/parser.rb:128-143 | any index that ends a run of the class at a non-member is the run's end |
| Lexer.FirstMatch | src/parser.rb:96-106 | regex alternation picks a listed lexeme that matches at the cursor, and none exists only when no listed lexeme matches |
| Lexer.FirstMatchIsFirst | src/parser.rb:96-103 | no lexeme listed before the chosen one matches at the cursor |
| Lexer.FirstMatchOnly | src/parser.rb:96-103 | when one lexeme alone matches, the alternation returns it |
| Lexer.OperatorAtIsRegexMatch | src/parser.rb:96-106 | the operator scan equals first-match over the length-sorted `OPERATORS` |
| Lexer.SingleOperatorMatch | src/parser.rb:96-106 | without `//` at the cursor an operator character lexes as itself |
| Lexer.OperatorAtIsLongest | src/parser.rb:96-106 | the operator matched is a table lexeme and no longer table lexeme prefixes the input there |
| Lexer.OperatorIsLongestMatch | src/parser.rb:152-155 | an `operator` token's raw is the longest table lexeme prefixing the input, and the cursor advances by its length |
| Lexer.OpQuoteAt | src/parser.rb:108-111 | an op-quote match starts at the cursor with `(`, ends with `)` and has at least three characters |
| Lexer.StringAt | src/parser.rb:113-116 | a string match starts at the cursor with `"`, ends with `"` and has at least two characters |
| Lexer.Classify | src/parser.rb:118-208 | `read_token`'s decision consumes at least one character within the input; it raises only on a lone trailing `'`; a bracket's kind is given by the toggle |
| Lexer.ClassifyByFirst | src/parser.rb:128-208 | the decision is the outcome of the first alternative of the chain whose guard holds, and `unknown` of length 1 when none does |
| Lexer.NoneApplicable | src/parser.rb:203-207 | when no alternative is found, no guard of the chain holds |
| Lexer.DecidedBy | src/parser.rb:128-208 | alternative `k` decides when its guard holds and no earlier guard does |
| Lexer.Decision | src/parser.rb:128-208 | the kind and the length chosen for each alternative of the chain |
| Lexer.KindOf | src/parser.rb:128-202 | each alternative gives one kind, never `unknown`; only the number, operator and infinity alternatives give those kinds |
| Lexer.Outcome | src/parser.rb:128-202 | an applicable alternative that succeeds consumes at least one character within the input |
| Lexer.ClassifyWith | src/parser.rb:118-208 | for any rule chain: at least one character is consumed; the only raise is a lone trailing `'`; brackets follow the toggle |
| Lexer.RulesByIndex | src/parser.rb:128-202 | the priority order: number, blank, op-quote, string, operator, `;`, character, infinity, `{`, `}`, `:`, bracket, word, `(`, `)`, `,` |
| Lexer.NumberExtent | src/parser.rb:128-137 | a digit starts a number token spanning the run of digits and separators, then the run of terminators |
| Lexer.NumberKind | src/parser.rb:128-129 | a token is a number exactly when a digit starts it |
| Lexer.NumberShape | src/parser.rb:89-94 | a number token is a digit, then digits or `b` `e` `.`, then any run of `r` `i` `f` |
| Lexer.ParenDecision | src/parser.rb:144-147 | at `(` the op-quote alternative is tried before `paren_open` |
| Lexer.OpQuoteBeforeParen | src/parser.rb:144-147 | `(+)` lexes as one op-quote token of length 3 |
| Lexer.ParenWithoutOperator | src/parser.rb:191-194 | `(x)` starts with a one-character `paren_open` |
| Lexer.UnknownIsOneChar | src/parser.rb:203-207 | an `unknown` token is one character that no earlier alternative accepts |
| Lexer.UnknownMeansNoAlternative | src/parser.rb:203-207 | `unknown` is produced exactly when no alternative of the chain applies |
| Lexer.NoInfinityToken | src/parser.rb:166-169 | no token is ever of kind infinity |
| Lexer.BracketKind | src/parser.rb:182-186 | `[` and `]` alike give `range_open` or `range_close` according to the toggle alone |
| Lexer.LexStep | src/parser.rb:213-217 | one step of `each`: the classified token at the cursor, then the tokens after it |
| Lexer.LexCoversInput | src/parser.rb:118-217 | the raws of `tokenize(code)` reproduce the input from `p`, except a lone trailing quote, which is the only raise |
| Lexer.LexTokensTile | src/parser.rb:123-126 | the lexed tokens tile the input with their recorded positions |
| Lexer.BracketsAlternate | src/parser.rb:49 | the lexed brackets alternate open/close, starting with open from a fresh tokenizer |
| Lexer.DecideIsSound | src/parser.rb:118-208 | every decision advances by at least one character within the input, so `each` terminates |
| Tokenizers.Tokenizer.constructor | src/parser.rb:43-50 | a fresh tokenizer stands at offset 0, line 1, column 1, outside any range |
| Tokenizers.Tokenizer.Advance | src/parser.rb:60-70 | `advance(n)` moves `@pos` by `n` and keeps line and column equal to the recount of line feeds |
| Tokenizers.Tokenizer.ReadRun | src/parser.rb:138-143 | the `while` loop reads the maximal run of the class at the cursor and returns exactly that text |
| Tokenizers.Tokenizer.ReadRunOf | src/parser.rb:138-143 | reads the maximal run of a class as one token of the given kind, recording where it started |
| Tokenizers.Tokenizer.ReadRunToken | src/parser.rb:128-143 | the number, blank and word alternatives produce the decided token and advance by its length |
| Tokenizers.Tokenizer.ReadNumber | src/parser.rb:128-137 | the two loops read the digits and separators, then the terminators, as one number token |
| Tokenizers.Tokenizer.ReadCharacter | src/parser.rb:160-165 | `'` with the next character is a two-character token; at the end of the input it raises |
| Tokenizers.Tokenizer.Read | src/parser.rb:144-155 | reading a fixed-length match advances the cursor by its length and records where it started |
| Tokenizers.Tokenizer.ReadFixedToken | src/parser.rb:144-202 | the fixed-length alternatives produce the decided token or its raise, advance by its length and update the toggle |
| Tokenizers.Tokenizer.ReadAlternative | src/parser.rb:128-208 | the body of the alternative whose guard holds produces the decided token and advances by its length |
| Tokenizers.Tokenizer.ReadToken | src/parser.rb:118-211 | `read_token` returns the token the decision describes, advances by its length and flips the toggle on a bracket |
| Tokenizers.Tokenizer.Next | src/parser.rb:213-216 | one step of the `while running?` loop puts its token in front of the rest of the stream |
| Tokenizers.Tokenizer.Each | src/parser.rb:213-217 | `each` produces exactly the token stream of the specification from the cursor |
| Shunting.EngineTable | src/ast.rb:3-11 | the engine ranks `+ -` at 5 and `* /` at 10; `//`, `@` and count raws have no rank |
| Shunting.FlushedPops | src/ast.rb:13-17 | `flush` keeps a prefix of the stack and emits the rest top first |
| Shunting.FlushedPopsNoMarker | src/ast.rb:13-17 | `flush` pops no `(` or `[` marker |
| Shunting.FlushedStops | src/ast.rb:13-17 | after `flush` the stack is empty or has a marker on top |
| Shunting.Flush | src/ast.rb:13-17 | the `until` loop computes the flushed stack and output |
| Shunting.PoppedHigherPops | src/ast.rb:73-78 | the pop loop keeps a prefix of the stack and emits the rest top first |
| Shunting.PoppedHigherOutrank | src/ast.rb:73-78 | every operator the loop pops ranks at least as high as the incoming one |
| Shunting.PoppedHigherStops | src/ast.rb:73-78 | the loop stops at an empty stack, a non-operator or a lower rank, and raises only when a rank is missing |
| Shunting.PopHigher | src/ast.rb:73-78 | the `loop` computes the popped stack, the output and the raise |
| Shunting.PopArity | src/ast.rb:47 | `arities.pop` returns the top and the rest, or nil on an empty stack |
| Shunting.JoinRaw | src/ast.rb:59 | `range.raw += token.raw` concatenates two Strings, adds two Integers and raises on a mix |
| Shunting.CallToken | src/ast.rb:47 | the `call_func` token is neither data nor an operator |
| Shunting.Feed | src/ast.rb:27-91 | one pass of the block given to `tokenize` is one step of the specification |
| Shunting.FeedParenClose | src/ast.rb:42-50 | the `:paren_close` branch |
| Shunting.FeedRangeClose | src/ast.rb:56-62 | the `:range_close` branch |
| Shunting.FeedOperator | src/ast.rb:68-80 | the `operator?` branch |
| Shunting.EmitRest | src/ast.rb:94-96 | `reverse_each` emits the remaining stack top first |
| Shunting.Shunt | src/ast.rb:19-104 | `shunt` emits exactly the specification's postfix stream, up to the first raise |
| ShuntingFacts.UnaryExactlyWithoutOperand | src/ast.rb:69-70 | an operator with no previous token or after an operator becomes unary and is pushed without popping |
| ShuntingFacts.BinaryPopsHigher | src/ast.rb:71-80 | a binary operator pops, top first, every stacked operator of rank at least its own, then is pushed |
| ShuntingFacts.BinaryRaisesOnMissingPrecedence | src/ast.rb:72-76 | a binary operator raises exactly when it meets a stacked operator and one of the two ranks is missing |
| ShuntingFacts.DataAfterDataFlushes | src/ast.rb:28-32 | data right after data first flushes to the nearest marker, then is emitted |
| ShuntingFacts.DataEmittedAtOnce | src/ast.rb:28-32 | otherwise data is emitted at once and the stacks are untouched |
| ShuntingFacts.ParenOpenRecordsCall | src/ast.rb:34-40 | `(` raises with no previous token; else it is pushed, the call mask records `data_like?`, and a call pushes arity 1 |
| ShuntingFacts.CommaCountsArgument | src/ast.rb:64-66 | `,` raises on an empty arity stack; else it adds one to the innermost arity and flushes |
| ShuntingFacts.CallCloseEmitsArity | src/ast.rb:42-50 | `)` of a call flushes, emits `call_func` with the arity, and pops the marker |
| ShuntingFacts.GroupCloseEmitsNothingElse | src/ast.rb:42-50 | `)` of a grouping emits only what the flush emits |
| ShuntingFacts.RangeCloseEmitsCountThenRange | src/ast.rb:56-62 | a range close flushes, then emits an atom with the count and the open token turned `assign_range` with both raws |
| ShuntingFacts.BlankIgnored | src/ast.rb:82-91 | a blank changes nothing, not even the previous token |
| ShuntingFacts.StepKeepsOperands | src/ast.rb:27-91 | each branch of the token loop emits the operands it is given, in order, and stacks none |
| ShuntingFacts.RunKeepsOperands | src/ast.rb:27-92 | the token loop never stacks an operand and emits the operands in input order |
| ShuntingFacts.ShuntKeepsOperands | src/ast.rb:19-97 | the postfix stream carries the input's operands in their order, all of them when nothing raised |
| ShuntingExamples.ShuntLeftAssociative | src/ast.rb:71-80 | `a m b n c` with `m` ranked at least `n` gives `a b m c n` |
| ShuntingExamples.ShuntHigherRankFirst | src/ast.rb:71-80 | with `n` ranked above `m` it gives `a b c n m` |
| ShuntingExamples.ShuntUnaryThenBinary | src/ast.rb:69-80 | a leading operator is unary and is emitted before the binary one |
| ShuntingExamples.ShuntTwoOperands | src/ast.rb:28-32 | two operands separated by a blank are both emitted |
| ShuntingExamples.ShuntCallOfTwo | src/ast.rb:34-66 | `f(a, b)` gives `f a b call_func(2)` |
| ShuntingExamples.ShuntEmptyCall | src/ast.rb:34-50 | `f()` gives `f call_func(1)`: empty argument lists get no special case |
| ShuntingExamples.ShuntRangeOfTwo | src/ast.rb:52-66 | `[a, b]` gives `a b atom(2) assign_range` whose raw is `[]` |
| ShuntingExamples.ShuntLeadingParen | src/ast.rb:37 | a leading `(` raises before anything is emitted |
| ShuntingExamples.ShuntUnrankedAfterOperator | src/ast.rb:76 | an operator missing from the engine's table raises when it meets a stacked operator |
| Ast.PopN | src/ast.rb:114 | `stack.pop(n)` returns the top `n` entries in order (fewer on a short stack) and leaves the rest |
| Ast.Pop | src/ast.rb:117 | `stack.pop` returns the top entry, or nil on an empty stack |
| Ast.Absorb | src/ast.rb:110-126 | one pass of the block `ast` gives `shunt` is one builder step |
| Ast.Ast | src/ast.rb:108-129 | `ast` returns the specification's stack of trees, or the first raise of the engine or the builder |
| AstFacts.BinaryTakesTwoInOrder | src/ast.rb:113-115 | a binary operator takes the top two trees as children, the deeper one first |
| AstFacts.UnaryTakesOne | src/ast.rb:113-115 | a unary operator takes the top tree only |
| AstFacts.OperatorOnShortStack | src/ast.rb:114 | missing operands raise nothing: the operator takes the entries there are |
| AstFacts.RangeTakesCountedElements | src/ast.rb:116-119 | `assign_range` pops the count and then that many elements, in order |
| AstFacts.CallTakesArgumentsThenCallee | src/ast.rb:120-123 | `call_func` pops its arguments, then the callee, which becomes the head |
| AstFacts.CallWithoutCallee | src/ast.rb:122 | with nothing under the arguments the callee is nil |
| AstFacts.CallWithoutCountRaises | src/ast.rb:121 | a `call_func` carrying nil raises |
| AstFacts.DataPushed | src/ast.rb:111-112 | data is pushed as a leaf |
| AstFacts.OperandsAreRoots | src/ast.rb:111-112 | operands alone each become a tree of their own, in order |
| AstFacts.BuildAppend | src/ast.rb:110-127 | building a concatenation builds the first part, then the second on the stack left behind |
| AstFacts.BuildRangeOf | src/ast.rb:116-119 | elements, their count and `assign_range` build one range node over the elements |
| AstFacts.BuildCallOf | src/ast.rb:120-123 | callee, arguments and `call_func` build one call node |
| AstFacts.AstOfShunted | src/ast.rb:108-129 | `ast` is the builder's result on the postfix stream, unless the engine raised |
| AstExamples.AstLeftAssociative | src/ast.rb:71-80 | `1-2-3` shape: `n(m(a, b), c)` |
| AstExamples.AstHigherRankFirst | src/ast.rb:71-80 | `1+2*3` shape: `m(a, n(b, c))` |
| AstExamples.AstUnaryThenBinary | src/ast.rb:69-80 | `-3+4` shape: `n(unary m(a), b)` |
| AstExamples.AstTwoRoots | src/ast.rb:28-32 | `3 4` gives two roots |
| AstExamples.AstCallOfTwo | src/ast.rb:120-123 | `f(a, b)` gives a node headed by `f` with children `a`, `b` |
| AstExamples.AstEmptyCall | src/ast.rb:120-123 | `f()` gives a node with a nil head and `f` as its only child |
| AstExamples.AstRangeOfTwo | src/ast.rb:116-119 | `[a, b]` gives one `assign_range` node with both elements |
| AstExamples.AstLeadingParen | src/ast.rb:37 | a leading `(` makes `ast` raise |
| AstExamples.AstUnrankedAfterOperator | src/ast.rb:76 | `1*2//3` shape raises for the missing rank |
| AstExamples.OneMinusTwoMinusThree | src/ast.rb:71-80 | `1-2-3` is `-(-(1, 2), 3)` |
| AstExamples.OnePlusTwoTimesThree | src/ast.rb:71-80 | `1+2*3` is `+(1, *(2, 3))` |
| AstExamples.MinusThreePlusFour | src/ast.rb:69-80 | `-3+4` is `+(unary -(3), 4)` |
| AstExamples.FloorDivisionAfterProductRaises | src/ast.rb:3-11 | `1*2//3` raises: the engine's table has no `//` |
| Ranges.FloorMod | src/range.rb:211 | Ruby's `%`: the remainder has the divisor's sign and is zero exactly when Dafny's is |
| Ranges.FloorDiv | src/range.rb:201 | Ruby's `/`: quotient and floored remainder recombine to the dividend |
| Ranges.Cmp | src/range.rb:152 | `<=>` on integers is -1, 0 or 1 by order |
| Ranges.Each | src/range.rb:163-169 | the `until` loop yields exactly `Elements(r)` |
| RangeQueries.ReverseTwice | src/range.rb:155-161 | reversing twice restores every field; reversal keeps the excluded endpoints |
| RangeFacts.ValidIndices | src/range.rb:155-157 | a lattice point fails `valid_outer_bound?` exactly when it is an excluded endpoint |
| RangeFacts.PtLess | src/range.rb:163-169 | for a positive step lattice points are ordered as their indices |
| RangeFacts.BelowUpper | src/range.rb:166 | a lattice point is at most `upper` exactly when its index is at most the top index |
| RangeFacts.WalkShape | src/range.rb:163-169 | from lattice index `k`, `each` yields the consecutive lattice points up to the last valid one |
| RangeFacts.FirstAtKStart | src/range.rb:171-181 | `first` is `lower`, or one step on when `lower` is excluded |
| RangeFacts.ElementsCount | src/range.rb:163-169 | for a positive step, `each` yields one point per valid lattice index |
| RangeFacts.ElementsAreProgression | src/range.rb:163-169 | for a positive step, the points are `first`, `first + step`, … |
| RangeFacts.ElementsAscend | src/range.rb:163-169 | for a positive step, each point is one step after the previous one |
| RangeFacts.LastStartsAtTop | src/range.rb:211 | `upper - (upper - lower) % step` is the last lattice point at or below `upper` |
| RangeFacts.LastCorrectedAtKEnd | src/range.rb:206-219 | the corrected `last` is the last valid lattice point, or one step before `first` when there is none |
| RangeFacts.LastCorrectedGap | src/range.rb:206-219 | the corrected `last` lies a whole number of steps from `first`: one fewer than the number of points |
| RangeFacts.SizeCorrectedCountsElements | src/range.rb:197-219 | the corrected `size` is the number of points `each` yields |
| RangeFacts.EndsAreFirstAndLastCorrected | src/range.rb:171-219 | `first` and the corrected `last` are the first and last points `each` yields |
| RangeQueries.ElementsOnLattice | src/range.rb:163-169 | the `j`-th point yielded is the lattice point at index `KStart + j` |
| RangeQueries.LatticeIncluded | src/range.rb:237-244 | every valid lattice point is accepted by the corrected `include?` |
| RangeQueries.IncludedOnLattice | src/range.rb:237-244 | every number the corrected `include?` accepts is a valid lattice point |
| RangeQueries.ElementsAreIncluded | src/range.rb:237-244 | for a positive step, `each` yields exactly the numbers the corrected `include?` accepts |
| RangeQueries.IncludeIffElement | src/range.rb:237-244 | for a positive step, `include?(x)` holds exactly when `each` yields `x` |
| RangeQueries.IncludeCorrectedIffElement | src/range.rb:237-244 | for any non-zero step, the corrected `include?` holds exactly when `each` yields `x` |
| RangeQueries.DirectedEnds | src/range.rb:197-219 | corrected `last`/`size` of the fourth finding: for any non-zero step, `size` counts the points `each` yields and `last` is the last of them |
| RangeQueries.NegWalk | src/range.rb:163-169 | the loop of the mirrored range yields the negated points |
| RangeQueries.NegIncluded | src/range.rb:237-244 | the corrected `include?` is unchanged by mirroring |
| RangeQueries.ZeroStepRaises | src/range.rb:197-244 | with a zero step `include?`, `[]`, `last` and `size` raise, and a finite `each` yields nothing |
| RangeQueries.IndexIsLatticePoint | src/range.rb:227-235 | for `n >= 0`, `self[n]` is `lower + step * n` when included, else it raises |
| RangeQueries.IndexIsElement | src/range.rb:227-235 | with `lower` kept, `self[n]` is the `n`-th point `each` yields |
| RangeQueries.IndexAllIsSlice | src/range.rb:227-235 | `self[e]` over `lo...hi` is that slice of the points |
| RangeQueries.FirstNIsPrefix | src/range.rb:171-187 | `first(n)` is the first `n` points |
| RangeQueries.FirstNWithExcludedLowerRaises | src/range.rb:182-186 | `first(n)` with an excluded `lower` raises: `self[0]` is `lower` |
| RangeQueries.KeptUpperAgrees | src/range.rb:197-219 | with `upper` kept, `last` and `size` equal their corrected forms |
| RangeQueries.LastNBeforeSize | src/range.rb:220-224 | `last(n)` reads indices `size - n ... size` |
| RangeQueries.LastNIsSuffix | src/range.rb:220-224 | with both ends kept, `last(n)` is the last `n` points |
| RangeQueries.MinMaxAreEnds | src/range.rb:189-195 | with `upper` kept and a positive step, `min` and `max` are the first and last points |
| RangeQueries.NegativeIndexRaises | src/range.rb:228-229 | a negative index on an ascending range raises: the reversed range includes nothing |
| RangeExamples.LastStepsBackFromKeptPoint | src/range.rb:206-219 | `[1, 10[` by 2 yields 1,3,5,7,9 but `last` is 7 and `size` 4 |
| RangeExamples.DescendingIncludesNothing | src/range.rb:237-244 | from 3 down to 1, `each` yields 3 yet `include?(3)` is false |
| RangeExamples.DescendingLastOvershoots | src/range.rb:189-219 | from 3 down to 1, `each` yields 3,2,1 yet `last` and `min` are 4 and `size` is 0 |
| RangeExamples.LastByNegativeIndexRaises | src/range.rb:227-235 | `[1, 5]`: the last point is 5 but `self[-1]` raises |
| Enumerables.TileLength | src/range.rb:54-64 | `tile(n)` has `n` times as many elements |
| Enumerables.TileAt | src/range.rb:61-63 | element `j` of the `k`-th run of `tile(n)` is element `k` |
| Enumerables.TileDrop | src/range.rb:61-63 | after the first run of `tile(n)` comes the tiling of the rest |
| Enumerables.SkipStep | src/range.rb:77-80 | one element: yielded when the cycling counter reads 1, and the counter moves on |
| Enumerables.CountedIsRemaining | src/range.rb:77-80 | the cycling counter yields the positions `0, n, 2n, …` still ahead |
| Enumerables.EveryNthAt | src/range.rb:70-81 | the `k`-th element kept is the one at position `k * n`, and it exists exactly when that position does |
| Enumerables.Skip | src/range.rb:70-81 | the counter loop computes `skip(n)` |
| Enumerables.SkipPositions | src/range.rb:70-81 | `skip(n)` yields exactly the elements at positions `0, n, 2n, …` |
| Enumerables.SkipUndoesTile | src/range.rb:54-81 | `skip(n)` after `tile(n)` gives the input back |
| Enumerables.TailsTotal | src/range.rb:264-273 | each pass lowers the total count of the live copies, so the loop ends |
| Enumerables.Pass | src/range.rb:265-272 | one `keep_if` pass yields the head of each live copy and keeps their tails |
| Enumerables.SplicedEach | src/range.rb:262-274 | the `until` loop yields exactly the round-robin splice |
| Enumerables.SpliceIsPermutation | src/range.rb:262-274 | the splice yields every element of every sequence, as often as it occurs |
| Enumerables.SpliceOne | src/range.rb:262-274 | splicing one sequence yields it unchanged |
| Enumerables.SpliceTwoLength | src/range.rb:262-274 | two sequences of one length splice into twice as many elements |
| Enumerables.SpliceTwo | src/range.rb:262-274 | two sequences of one length alternate: `a[0], b[0], a[1], b[1], …` |
| Characters.HalfShrinks | src/range.rb:34-38 | halving moves every integer but 0 and -1 towards them, so the bitwise recursion ends |
| Characters.AndPlusOr | src/range.rb:34-38 | `a & b` plus `a \| b` is `a + b` on two's-complement integers |
| Characters.XorIsOrMinusAnd | src/range.rb:34-38 | `a ^ b` is `(a \| b) - (a & b)` |
| Characters.SelfBitwise | src/range.rb:34-38 | `a ^ a` is 0 and `a & a` is `a` |
| Characters.Apply | src/range.rb:34-38 | `c op n` is a Character over the code point; a String operand is outside the model |
| Characters.CharOperandIsCodePoint | src/range.rb:34-38 | a Character operand counts as its code point |
| Characters.AddThenSub | src/range.rb:34-38 | adding then subtracting the same operand gives the Character back |
| Characters.MulThenDiv | src/range.rb:34-38 | dividing a product by the same non-zero operand gives the Character back |
| Characters.DivModRecombine | src/range.rb:34-38 | `/` and `%` recombine to the code point with a floored remainder; zero raises |
| Characters.BitwiseOnCodePoints | src/range.rb:34-38 | the bitwise operators act on the two code points |
| Characters.SelfOperations | src/range.rb:34-38 | `c ^ c` is the character 0 and `c & c` is `c` |
| Characters.NegativePowerRaises | src/range.rb:34-38 | a negative exponent raises: a Rational has no code point |
| Characters.LongStringIsFalse | src/range.rb:40-44 | against a String of length other than 1 every comparison is `false` |
| Characters.OneCharStringIsCodePoint | src/range.rb:45-47 | a one-character String or a Character compares as its code point |
| Characters.ComparisonsAgree | src/range.rb:40-50 | otherwise `!=` negates `==`, `<` negates `>=`, `>` negates `<=`, and `<=>` agrees |
| RubyText.IntToStringRoundTrip | src/transpiler.rb:68 | `Integer#to_s` writes digits that read back as the number, with no leading zero |
| RubyText.IntToStringInjective | src/transpiler.rb:68 | distinct numbers are written differently |
| RubyText.Inspect | src/transpiler.rb:91 | `inspect` writes the text between double quotes |
| RubyText.InspectWord | src/transpiler.rb:91 | a word name is only quoted by `inspect` |
| RubyText.EscapeReadsBack | src/transpiler.rb:91 | `inspect`'s escapes read back to the original text |
| RubyText.InspectInjective | src/transpiler.rb:91 | distinct names inspect differently |
| Leaves.FixVarname | src/transpiler.rb:47-54 | `fix_varname` adds `_` exactly for a reserved name or one starting with `_`, and never returns a reserved word |
| Leaves.FixVarnameInjective | src/transpiler.rb:47-54 | distinct names stay distinct |
| Leaves.WordLeafQuotesName | src/transpiler.rb:90-91 | a word leaf is `get_var("<mangled name>")` |
| Leaves.SplitTerminator | src/transpiler.rb:60-63 | one final `r`, `i` or `f` is split off the raw |
| Leaves.GcdDivides | src/transpiler.rb:65-66 | the common divisor divides numerator and denominator |
| Leaves.ReducedKeepsValue | src/transpiler.rb:65-66 | reducing keeps the fraction's value and a positive denominator |
| Leaves.ToRIsExact | src/transpiler.rb:65 | `to_r` is the exact value of the decimal text |
| Leaves.NumberLeafDecimal | src/transpiler.rb:57-83 | text with a `.` is the literal `(Nr/D)` of its exact value; `f` adds `.to_f`, `i` multiplies by `1i`, `r` adds nothing |
| Leaves.NumberLeafInteger | src/transpiler.rb:57-83 | text without `.` is kept, with `.to_f`, `r` or `*1i` for its terminator |
| Leaves.NumberLeafDecimalExample | src/transpiler.rb:64-67 | `2.5` renders `(5r/2)` |
| Leaves.NumberLeafSuffixExamples | src/transpiler.rb:70-81 | `3ri` renders `(3r*1i)` and `4f` renders `4.to_f` |
| Leaves.CharacterLeaf | src/transpiler.rb:84-85 | a character leaf renders exactly when the raw has a second character |
| Leaves.CharacterLeafCodePoint | src/transpiler.rb:84-85 | the argument of `Character.new` is the decimal code point of `raw[1]` |
| Leaves.CollapseUndoesDouble | src/transpiler.rb:93-95 | collapsing doubled quotes gives back the text that was doubled |
| Leaves.DecodeEscapesUndoesEscape | src/transpiler.rb:95-96 | decoding `\n`, `\t`, `\\` reverses `inspect`'s escapes on text without `"` |
| Leaves.StringLeafAsWritten | src/transpiler.rb:93-97 | the string leaf as written (collapse `""` over the whole literal, then `[1..-2]`) renders exactly for a non-empty raw |
| Leaves.StringLeafAsWrittenAgrees | src/transpiler.rb:93-97 | as written, the leaf of a literal reads its text back exactly when the text is empty or holds a non-quote; a text of quotes only loses one quote |
| Leaves.StringLeaf | src/transpiler.rb:93-97 | corrected leaf of the third finding (strip the outer quotes, then collapse): renders exactly for a non-empty raw |
| Leaves.StringLeafReadsLiteral | src/transpiler.rb:93-97 | corrected leaf of the third finding: the leaf of the literal of any text `x` is `x` decoded between single quotes |
| Leaves.StringLeafLosesQuote | src/transpiler.rb:93-97 | as written, the literal `""""` of a lone quote renders `''` |
| Leaves.PatternLeaf | src/transpiler.rb:99-108 | a pattern leaf renders exactly when the collapsed raw has two characters |
| Leaves.CompileLeaf | src/transpiler.rb:56-189 | `compile_leaf` returns nil exactly for the kinds it does not handle; a string token gets the leaf as written |
| Transpiler.FixAll | src/transpiler.rb:399-401 | `map! { fix_varname }` keeps one name per parameter |
| Transpiler.Render | src/transpiler.rb:451-481 | a tree that renders leaves `@depth` as it found it |
| Transpiler.RenderAll | src/transpiler.rb:194-196 | the children that render give one value each, at the same depth |
| Transpiler.RenderSetVar | src/transpiler.rb:278-283 | an assignment that renders leaves `@depth` as it found it |
| Transpiler.RenderBlock | src/transpiler.rb:395-449 | a block that renders returns `@depth` to where it was |
| Transpiler.RenderBody | src/transpiler.rb:426-432 | a body that renders gives a String at the same depth |
| Transpiler.EachTree | src/transpiler.rb:23-25 | when no tree raises, `each` yields one value per tree at the same depth |
| Transpiler.HeaderValues | src/transpiler.rb:6 | `each` hands one value per `HEADER` line |
| TranspilerFacts.RenderAllPointwise | src/transpiler.rb:194-196 | the children render exactly when each child does, and each value is that child's |
| TranspilerFacts.NodeHeadIsCall | src/transpiler.rb:191-198 | a node headed by a node renders `call_func(<head>, <children joined by ", ">)` |
| TranspilerFacts.UnhandledHeadRaises | src/transpiler.rb:476-477 | any other head kind raises |
| TranspilerFacts.NonNodeHasNoType | src/transpiler.rb:478-480 | nil or an Array as a tree has no `type` and raises |
| TranspilerFacts.KnownBinaryRenders | src/transpiler.rb:206-287 | every lexeme a `when` of `transpile_operator` names renders |
| TranspilerFacts.UnknownBinaryRaises | src/transpiler.rb:288-289 | any other lexeme, the assignments aside, raises `NoOperatorException` |
| TranspilerFacts.KnownUnaryRenders | src/transpiler.rb:307-337 | every lexeme a `when` of `transpile_unaryoperator` names renders |
| TranspilerFacts.UnknownUnaryRaises | src/transpiler.rb:338-339 | any other unary lexeme raises `NoOperatorException` |
| TranspilerFacts.InfixOperators | src/transpiler.rb:207-208 | Ruby's own operators are written between the parenthesised operands |
| TranspilerFacts.AliasedOperators | src/transpiler.rb:209-210 | `≠ ≥ ≤` are written `!= >= <=` |
| TranspilerFacts.EqualsOperator | src/transpiler.rb:236-237 | `=` compares with `==` |
| TranspilerFacts.NotEqualsOperator | src/transpiler.rb:238-239 | `/=` compares with `!=` |
| TranspilerFacts.TidyJoinReverses | src/transpiler.rb:244-245 | `⊡` calls `tidy_join` with its operands reversed |
| TranspilerFacts.LexedOperatorsRender | src/transpiler.rb:206-289 | every lexeme the lexer reads as an operator renders as a binary operator |
| TranspilerFacts.LexedUnaryOperators | src/transpiler.rb:306-339 | as prefixes `+`, `/` and `//` raise, and the other lexed operators render |
| TranspilerFacts.TildeIsPrefix | src/transpiler.rb:307-321 | `~` is matched by `RUBY_UNARY_OPERATORS` first, so it renders as a prefix and its own `when` is dead |
| TranspilerFacts.SetVarForm | src/transpiler.rb:278-283 | `:=` and `.=` store the value under the inspected mangled name |
| TranspilerFacts.SetVarNeedsNameAndValue | src/transpiler.rb:279-280 | an assignment without a target token and a value raises |
| TranspilerFacts.RangeBrackets | src/transpiler.rb:349-350 | `]` first excludes the lower end, `[` second excludes the upper end |
| TranspilerFacts.RangeFormOperands | src/transpiler.rb:350-361 | a range renders exactly with two or three operands |
| TranspilerFacts.RangeFormExample | src/transpiler.rb:353-358 | two operands use step 1; three use the middle one as the step |
| TranspilerFacts.QuestionForm | src/transpiler.rb:374-377 | `Q` is a conditional, `nil` when the third operand is missing |
| TranspilerFacts.IfForm | src/transpiler.rb:378-384 | `if` has an `else` part only with a third operand |
| TranspilerFacts.WhileForm | src/transpiler.rb:385-389 | `while` runs the other operands as its body |
| TranspilerFacts.WordCallQuotesName | src/transpiler.rb:390-391 | any other word calls the function of that name, quoted |
| TranspilerFacts.FixAllPointwise | src/transpiler.rb:398-401 | the parameters mangle one by one; a non-String parameter stops the block |
| TranspilerFacts.BlockParamsNotReserved | src/transpiler.rb:398-401 | no block parameter is a reserved word |
| TranspilerFacts.BodyIsStatements | src/transpiler.rb:426-432 | the body renders exactly when every statement renders a String, as one line each, the last assigning `result` |
| TranspilerFacts.TopLevelBlock | src/transpiler.rb:395-449 | a top-level block is a lambda over `params, *discard` whose statements sit at depth 1, and depth returns to 0 |
| TranspilerFacts.NestedBlock | src/transpiler.rb:395-449 | a nested block saves the locals, renders its statements two levels deeper, and returns to its depth |
| TranspilerFacts.EachYieldsInOrder | src/transpiler.rb:19-26 | `each` yields each tree's value in order until the first raise |
| TranspilerFacts.EachHasNoHeader | src/transpiler.rb:6 | `HEADER` is empty, so `each` yields the trees' values alone |
| RubyTarget.Tidy2Ruby.constructor | src/transpiler.rb:42-45 | a new transpiler holds the trees at depth 0 |
| RubyTarget.Tidy2Ruby.New | src/transpiler.rb:7-9 | `new(code)` holds `ast(code)` of the lexed tokens, or raises what `ast` raises |
| RubyTarget.Tidy2Ruby.Transpile | src/transpiler.rb:451-481 | `transpile` returns the specification's value and leaves `@depth` where it specifies |
| RubyTarget.Tidy2Ruby.TranspileAll | src/transpiler.rb:194-196 | the children are transpiled in order, stopping at the first raise |
| RubyTarget.Tidy2Ruby.TranspileSetVar | src/transpiler.rb:278-283 | the assignment forms transpile their value child |
| RubyTarget.Tidy2Ruby.TranspileBlock | src/transpiler.rb:395-449 | `transpile_block` raises `@depth` by one (two when nested) and lowers it back |
| RubyTarget.Tidy2Ruby.Params | src/transpiler.rb:423-425 | the loop writes one `set_var_local` line per parameter |
| RubyTarget.Tidy2Ruby.TranspileBody | src/transpiler.rb:426-432 | the loop writes the statement lines, the last one assigning `result` |
| RubyTarget.Tidy2Ruby.Each | src/transpiler.rb:19-26 | `each` hands the header lines, then each tree's value, until one raises |

## Left out

- The `if $0 == __FILE__` blocks, `tidy.rb`, STDERR warnings and `eval` of the generated code. These are I/O and a REPL. A warning is modelled as "continue with no effect".
- `LazyEnumerable` and `LazyEnumerator`, the lazy `Enumerator` plumbing, `recursive_enum`, `flatten` and `any_equal?`. These are metaprogramming over infinite enumerators, outside finite sequence logic. `tile`, `skip` and `SplicedSequence#each` are modelled on finite sequences, as the list they yield.
- Floats: `Infinity`, the `infinite?` branches of `first`, `last` and `size`, and an infinity leaf, which is `Unmodelled`. Ranges have integer endpoints.
- The op-quote branch of `compile_leaf` and `transpile_opquote`. That branch uses constants the tokenizer does not define, and it probes the operator tables through raised exceptions. Both are `Unmodelled`.
- The `code` accessor of `TidyTranspiler`. It reads `@code`, which is never set.
- Characters.Apply: a String operand (`String#to_i`) is `Unmodelled`. Integer and Character operands are modelled.
- Leaves.CompileLeaf: an Integer raw in a leaf that is read as text is `Unmodelled`. A `fix_varname` call on an Integer parameter is `Unmodelled` too.
- Leaves.NumberLeafDecimal: the rational is proved equal to the decimal's value and reduced by the gcd. That it is in lowest terms is not proved.
- Leaves.NumberLeafDecimal: a raw with a `.` that is not number-token text is `Unmodelled`.
- RubyText.Inspect: only `"`, `\`, line feed and tab are escaped. Other control and non-ASCII characters that Ruby's `inspect` escapes are written as they stand.
- Transpiler.RenderBlock: a block body that is itself an `ASTNode` is `Unmodelled`. The model covers the Array body that `ast` gives a block and a body that raises.
- `BinaryOp` tests `BinaryCalls` after the other lexeme groups. No lexeme is named by two `when`s, so the result is the same as the source's order.
- RubyTarget.Tidy2Ruby.Each: the block handed to `each` is modelled as the list of values it receives.
- The lexer's regular expressions are modelled as predicates on the character sequence. `\w` is ASCII letters, digits and `_`. `\s` is space, tab, line feed, carriage return, form feed and vertical tab.

## Findings

| source | as written | input that shows it | evidently intended | confidence | as-written member | corrected member |
|---|---|---|---|---|---|---|
| src/range.rb:206-219 | `last` steps back one step whenever `upper` is excluded, even when `upper` is off the lattice; `size` inherits the error | `TidyRange.new(1, 10, 2, false, true)`: `each` yields 1,3,5,7,9 but `last` is 7 and `size` is 4 | step back only when `upper` is itself the excluded lattice point (`last` 9, `size` 5) | not executed | RangeExamples.LastStepsBackFromKeptPoint | RangeFacts.SizeCorrectedCountsElements |
| src/range.rb:237-244 | `include?` tests `lower <= n <= upper` whatever the sign of the step | `TidyRange.new(3, 1, -1)`: `each` yields 3,2,1 but `include?(3)` is false | test the bounds in the direction of the step | not executed | RangeExamples.DescendingIncludesNothing | RangeQueries.IncludeCorrectedIffElement |
| src/transpiler.rb:93-97 | the string leaf collapses `""` over the whole literal before stripping the outer quotes, so when the text is nothing but quotes the delimiters pair with them | the literal `""""` (a lone quote) renders `''` | strip the outer quotes, then collapse `""` (renders `'"'`) | not executed | Leaves.StringLeafLosesQuote | Leaves.StringLeafReadsLiteral |
| src/range.rb:189-219 | `last` replaces its point by `first - step` when `point < first`, an ascending test whatever the sign of the step; on a descending range every lattice point but `first` itself is below `first`, and `size` and `min` inherit the result | `TidyRange.new(3, 1, -1)`: `each` yields 3,2,1 but `last` and `min` are 4 and `size` is 0 | read a descending range on its mirror image (`last` 1, `size` 3) | not executed | RangeExamples.DescendingLastOvershoots | RangeQueries.DirectedEnds |
