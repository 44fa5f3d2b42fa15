/** The exceptions the modelled code raises, one constructor per distinct cause. */
module Faults {
  datatype Fault =
    /** lexer: a `'` as the last character, so `res.raw += cur` adds nil */
    | LoneQuote
    /** engine: `previous_token.data_like?` on a nil previous token (a leading `(`) */
    | NoPreviousToken
    /** engine: a range close finds an empty operator stack (`nil.raw`) */
    | NoRangeOpen
    /** engine: `range.raw += token.raw` with a String and an Integer */
    | RawTypeMismatch
    /** engine: `arities[-1] += 1` on an empty arity stack */
    | NoArity
    /** engine: a precedence comparison where one side has no entry in the engine's table */
    | MissingPrecedence
    /** builder: the count popped for `assign_range` or carried by `call_func` is not an Integer */
    | BadCount
    /** code generator: `NoOperatorException` */
    | NoOperator
    /** ranges: `TidyRange#[]` finds the computed element not included ("n is out of bounds") */
    | OutOfBounds
    /** ranges: Ruby's `%` or `/` with a zero divisor (ZeroDivisionError) */
    | ZeroDivision
    /** enumerables: `skip(n)` with `n <= 0` asks an empty cycle for its next value (StopIteration) */
    | StopIteration
    /** code generator: "unhandled head", "singleton ranges don't exist", "no range case" */
    | Unhandled
    /** code generator: a method called on nil or on a value that lacks it (NoMethodError) */
    | NoMethod
    /** code generator: `res += nil` for a statement whose value is nil (TypeError: no implicit conversion of nil into String) */
    | NilAppended
    /** behaviour outside this model: op-quote and infinity leaves, `String#to_i` operands */
    | Unmodelled
}
