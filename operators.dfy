/**
 * The operator table of the language: each operator lexeme with its
 * precedence, and the lexemes ordered by descending length, which the lexer
 * uses for longest-match scanning.
 */
module Operators {
  import opened Wrappers

  /** The table's keys in the order the hash literal lists them. */
  const Keys: seq<string> := ["-", "+", "*", "/", "//", "@"]

  const Precedence: map<string, int> :=
    map["-" := 10, "+" := 10, "*" := 20, "/" := 20, "//" := 20, "@" := 60]

  /**
   * `PRECEDENCE.keys.sort_by(&:size).reverse!`. Ruby's sort_by is not stable,
   * so the order among lexemes of equal length is not fixed; this is the
   * order a stable sort gives. Lemmas OperatorListIsPermutation and
   * OperatorListIsSorted state what the source relies on.
   */
  const OperatorList: seq<string> := ["//", "@", "/", "*", "+", "-"]

  /** Each lexeme is at least as long as every later one. */
  predicate NonIncreasingLength(s: seq<string>) {
    forall i, j :: 0 <= i < j < |s| ==> |s[i]| >= |s[j]|
  }

  /** `Operators.get_precedence`: the table value, or nil for an unknown lexeme. */
  function GetPrecedence(op: string): (r: Option<int>)
  {
    if op in Precedence then Some(Precedence[op]) else None
  }

  /** The lexeme list is a permutation of the table's keys. */
  lemma OperatorListIsPermutation()
    ensures multiset(OperatorList) == multiset(Keys)
  {
  }

  /** The lexeme list holds exactly the lexemes of the table. */
  lemma OperatorListMembers()
    ensures forall op :: op in OperatorList <==> op in Precedence
  {
  }

  /** The lexeme list is sorted by non-increasing length. */
  lemma OperatorListIsSorted()
    ensures NonIncreasingLength(OperatorList)
  {
  }

  /** In a list sorted by non-increasing length, a longer lexeme comes before a shorter one. */
  lemma LongerComesFirst(s: seq<string>, a: string, b: string)
    requires NonIncreasingLength(s) && a in s && b in s && |a| > |b|
    ensures exists i, j :: 0 <= i < j < |s| && s[i] == a && s[j] == b
  {
    var i :| 0 <= i < |s| && s[i] == a;
    var j :| 0 <= j < |s| && s[j] == b;
    assert !(j <= i);
  }

  /** `//` is scanned before `/` because it comes earlier in the lexeme list. */
  lemma SlashSlashBeforeSlash()
    ensures exists i, j :: 0 <= i < j < |OperatorList| && OperatorList[i] == "//" && OperatorList[j] == "/"
  {
    OperatorListIsSorted();
    LongerComesFirst(OperatorList, "//", "/");
  }

  /** A known lexeme yields its table value; any other string yields nil. */
  lemma GetPrecedenceTable(op: string)
    ensures GetPrecedence(op).Some? <==> op in Keys
    ensures op in Precedence ==> GetPrecedence(op) == Some(Precedence[op])
  {
  }

  /** Multiplicative lexemes outrank additive ones, and `@` outranks every other lexeme. */
  lemma PrecedenceRanking()
    ensures GetPrecedence("*") == GetPrecedence("/") == GetPrecedence("//") == Some(20)
    ensures GetPrecedence("+") == GetPrecedence("-") == Some(10)
    ensures forall o :: o in Precedence && o != "@" ==> GetPrecedence("@").value > GetPrecedence(o).value
  {
  }
}
