/**
 * `Character`: a code point that answers the integer operators with a new
 * `Character` and compares itself with integers, characters and one-character
 * strings.
 */
module Characters {
  import opened Wrappers
  import opened Faults
  import opened Arith
  import opened Ranges

  /** `Character.new(val)` keeps `val.ord`, which for an Integer is the Integer itself. */
  datatype Character = Character(val: int)

  /** The right operand of an operator: an Integer, another Character or a String. */
  datatype Operand = IntArg(i: int) | CharArg(c: Character) | StrArg(s: string)

  /** `n.to_i` for an arithmetic operand; `String#to_i` is not modelled. */
  function ToI(n: Operand): Result<int, Fault> {
    match n
    case IntArg(i) => Ok(i)
    case CharArg(c) => Ok(c.val)
    case StrArg(_) => Err(Unmodelled)
  }

  // ---------------------------------------------------------------------
  // Ruby's Integer operators

  datatype ArithOp = Add | Sub | Mul | Div | Mod | BitAnd | BitOr | BitXor | Pow

  datatype BitOp = And | Or | Xor

  /** The operator on two bits. */
  function BitOf(op: BitOp, x: int, y: int): int {
    match op
    case And => x * y
    case Or => x + y - x * y
    case Xor => x + y - 2 * x * y
  }

  function Abs(a: int): nat {
    if a < 0 then -a else a
  }

  /** Halving moves every integer but 0 and -1 towards them. */
  lemma HalfShrinks(a: int)
    ensures Abs(a / 2) <= Abs(a)
    ensures a != 0 && a != -1 ==> Abs(a / 2) < Abs(a)
  {
  }

  /**
   * `&`, `|` and `^` on two's complement integers of unbounded width: the low
   * bits are `a % 2` and `b % 2`, the rest are `a / 2` and `b / 2` (Dafny's
   * `/` and `%` by 2 are the arithmetic shift and the low bit), and 0 and -1
   * are the all-zeros and all-ones words.
   */
  function Bitwise(op: BitOp, a: int, b: int): int
    decreases Abs(a) + Abs(b)
  {
    if (a == 0 || a == -1) && (b == 0 || b == -1) then -BitOf(op, -a, -b)
    else
      HalfShrinks(a);
      HalfShrinks(b);
      2 * Bitwise(op, a / 2, b / 2) + BitOf(op, a % 2, b % 2)
  }

  /** `a & b` and `a | b` share out the bits of `a` and `b`: together they sum to `a + b`. */
  lemma {:induction false} AndPlusOr(a: int, b: int)
    ensures Bitwise(And, a, b) + Bitwise(Or, a, b) == a + b
    decreases Abs(a) + Abs(b)
  {
    if !((a == 0 || a == -1) && (b == 0 || b == -1)) {
      HalfShrinks(a);
      HalfShrinks(b);
      AndPlusOr(a / 2, b / 2);
    }
  }

  /** `a ^ b` holds the bits of `a | b` that are not in `a & b`. */
  lemma {:induction false} XorIsOrMinusAnd(a: int, b: int)
    ensures Bitwise(Xor, a, b) == Bitwise(Or, a, b) - Bitwise(And, a, b)
    decreases Abs(a) + Abs(b)
  {
    if !((a == 0 || a == -1) && (b == 0 || b == -1)) {
      HalfShrinks(a);
      HalfShrinks(b);
      XorIsOrMinusAnd(a / 2, b / 2);
      var x, y := a % 2, b % 2;
      assert BitOf(Xor, x, y) == BitOf(Or, x, y) - BitOf(And, x, y);
    }
  }

  /** Every bit of `a` is cancelled by itself under `^` and kept under `&`. */
  lemma {:induction false} SelfBitwise(a: int)
    ensures Bitwise(Xor, a, a) == 0 && Bitwise(And, a, a) == a
    decreases Abs(a)
  {
    if a != 0 && a != -1 {
      HalfShrinks(a);
      SelfBitwise(a / 2);
    }
  }

  /** `a ** k` for `k >= 0`. */
  function Power(a: int, k: nat): int {
    if k == 0 then 1 else a * Power(a, k - 1)
  }

  /**
   * Integer `a op b`, with the exceptions the Character constructor meets:
   * `/` and `%` by zero raise; a negative exponent makes a Rational, which has
   * no `ord` (and `0 ** -k` raises ZeroDivisionError first).
   */
  function IntOp(op: ArithOp, a: int, b: int): Result<int, Fault> {
    match op
    case Add => Ok(a + b)
    case Sub => Ok(a - b)
    case Mul => Ok(a * b)
    case Div => if b == 0 then Err(ZeroDivision) else Ok(FloorDiv(a, b))
    case Mod => if b == 0 then Err(ZeroDivision) else Ok(FloorMod(a, b))
    case BitAnd => Ok(Bitwise(And, a, b))
    case BitOr => Ok(Bitwise(Or, a, b))
    case BitXor => Ok(Bitwise(Xor, a, b))
    case Pow => if b >= 0 then Ok(Power(a, b)) else if a == 0 then Err(ZeroDivision) else Err(NoMethod)
  }

  /** `c op n`: `Character.new(c.val op n.to_i)`. */
  function Apply(c: Character, op: ArithOp, n: Operand): (r: Result<Character, Fault>)
    ensures n.StrArg? ==> r == Err(Unmodelled)
  {
    match ToI(n)
    case Err(f) => Err(f)
    case Ok(i) =>
      match IntOp(op, c.val, i)
      case Err(f) => Err(f)
      case Ok(v) => Ok(Character(v))
  }

  /** A Character operand counts as its code point. */
  lemma CharOperandIsCodePoint(c: Character, op: ArithOp, d: Character)
    ensures Apply(c, op, CharArg(d)) == Apply(c, op, IntArg(d.val))
  {
  }

  /** Adding and then subtracting the same operand gives the Character back. */
  lemma AddThenSub(c: Character, n: Operand)
    requires !n.StrArg?
    ensures Apply(c, Add, n).Ok? && Apply(Apply(c, Add, n).value, Sub, n) == Ok(c)
  {
  }

  /** Dividing a product by the same non-zero operand gives the Character back. */
  lemma MulThenDiv(c: Character, n: Operand)
    requires !n.StrArg? && ToI(n) != Ok(0)
    ensures Apply(c, Mul, n).Ok? && Apply(Apply(c, Mul, n).value, Div, n) == Ok(c)
  {
    var i := ToI(n).value;
    var p := c.val * i;
    assert FloorDiv(p, i) == c.val by {
      var q := FloorDiv(p, i);
      assert i * q + FloorMod(p, i) == p;
      assert FloorMod(p, i) == 0 by {
        MulMod(c.val, i);
      }
      assert i * (q - c.val) == 0;
    }
  }

  /** `/` and `%` recombine to the code point, the remainder taking the sign of the divisor; both raise on zero. */
  lemma DivModRecombine(c: Character, n: Operand)
    requires !n.StrArg?
    ensures var i := ToI(n).value;
      if i == 0 then Apply(c, Div, n) == Err(ZeroDivision) && Apply(c, Mod, n) == Err(ZeroDivision)
      else
        && Apply(c, Div, n).Ok? && Apply(c, Mod, n).Ok?
        && i * Apply(c, Div, n).value.val + Apply(c, Mod, n).value.val == c.val
        && (i > 0 ==> 0 <= Apply(c, Mod, n).value.val < i)
        && (i < 0 ==> i < Apply(c, Mod, n).value.val <= 0)
  {
  }

  /** `c & n` and `c | n` sum to the two code points, and `c ^ n` is their difference. */
  lemma BitwiseOnCodePoints(c: Character, n: Operand)
    requires !n.StrArg?
    ensures var i := ToI(n).value;
      && Apply(c, BitAnd, n).Ok? && Apply(c, BitOr, n).Ok? && Apply(c, BitXor, n).Ok?
      && Apply(c, BitAnd, n).value.val + Apply(c, BitOr, n).value.val == c.val + i
      && Apply(c, BitXor, n).value.val == Apply(c, BitOr, n).value.val - Apply(c, BitAnd, n).value.val
  {
    AndPlusOr(c.val, ToI(n).value);
    XorIsOrMinusAnd(c.val, ToI(n).value);
  }

  /** `c ^ c` is the character 0, and `c & c` is `c`. */
  lemma SelfOperations(c: Character)
    ensures Apply(c, BitXor, CharArg(c)) == Ok(Character(0))
    ensures Apply(c, BitAnd, CharArg(c)) == Ok(c)
  {
    SelfBitwise(c.val);
  }

  /** A negative exponent raises: a Rational has no code point. */
  lemma NegativePowerRaises(c: Character, k: int)
    requires k < 0
    ensures Apply(c, Pow, IntArg(k)).Err?
  {
  }

  // ---------------------------------------------------------------------
  // Comparisons

  datatype Relation = Le | Lt | Gt | Ge | Eq | Ne | Spaceship

  /** The result of a comparison: `true`/`false`, or the Integer `<=>` gives. */
  datatype Answer = Bool(b: bool) | Int(i: int)

  /** `c rel n`: a String of any length but 1 gives `false`; otherwise the code point is compared with the operand's Integer. */
  function Compare(c: Character, rel: Relation, n: Operand): Answer {
    match n
    case StrArg(s) =>
      if |s| != 1 then Bool(false) else CompareInt(c.val, rel, s[0] as int)
    case IntArg(i) => CompareInt(c.val, rel, i)
    case CharArg(d) => CompareInt(c.val, rel, d.val)
  }

  function CompareInt(a: int, rel: Relation, b: int): Answer {
    match rel
    case Le => Bool(a <= b)
    case Lt => Bool(a < b)
    case Gt => Bool(a > b)
    case Ge => Bool(a >= b)
    case Eq => Bool(a == b)
    case Ne => Bool(a != b)
    case Spaceship => Int(Cmp(a, b))
  }

  /** Against a String whose length is not 1 every operator answers `false`: `==` and `!=` alike, and `<=>` too. */
  lemma LongStringIsFalse(c: Character, s: string, rel: Relation)
    requires |s| != 1
    ensures Compare(c, rel, StrArg(s)) == Bool(false)
    ensures Compare(c, Eq, StrArg(s)) == Compare(c, Ne, StrArg(s))
  {
  }

  /** A one-character String compares as its code point, and so does a Character. */
  lemma OneCharStringIsCodePoint(c: Character, ch: char, rel: Relation)
    ensures Compare(c, rel, StrArg([ch])) == Compare(c, rel, IntArg(ch as int))
    ensures Compare(c, rel, CharArg(Character(ch as int))) == Compare(c, rel, IntArg(ch as int))
  {
  }

  /** Apart from long Strings, `!=` negates `==`, `<` negates `>=`, `>` negates `<=`, and `<=>` is 0 exactly when `==` holds. */
  lemma ComparisonsAgree(c: Character, n: Operand)
    requires !(n.StrArg? && |n.s| != 1)
    ensures Compare(c, Ne, n).b == !Compare(c, Eq, n).b
    ensures Compare(c, Lt, n).b == !Compare(c, Ge, n).b
    ensures Compare(c, Gt, n).b == !Compare(c, Le, n).b
    ensures Compare(c, Spaceship, n).i == 0 <==> Compare(c, Eq, n).b
    ensures Compare(c, Spaceship, n).i == 1 <==> Compare(c, Gt, n).b
  {
  }
}
