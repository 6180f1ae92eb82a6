/**
 * `AndMatcher`: the conjunction of two key matchers, with structural equality and
 * the usual 31-based hash code.
 *
 * Every matcher that is not an `AndMatcher` is a `Leaf`, known by an identity; what
 * such a matcher does (`isMatch`, `hashCode`) is given by the caller as a function of
 * that identity, and two leaves are equal exactly when their identities are.
 */
module Matchers {
  import opened Wrappers
  import opened JavaLang

  type LeafId = nat

  datatype Matcher = Leaf(id: LeafId) | And(left: Matcher, right: Matcher)

  /** The constructor's (and the static `and` factory's) message for a missing operand. */
  const MissingOperand := Exc(IllegalArgumentClass, Some("Two non-null operands required!"))

  /**
   * `AndMatcher.and(left, right)`, i.e. `new AndMatcher(left, right)`: a null operand is
   * refused with an `IllegalArgumentException`; otherwise the two operands are kept as given.
   */
  function NewAnd(left: Option<Matcher>, right: Option<Matcher>): (r: Result<Matcher, Exc>)
    ensures r.Success? <==> left.Some? && right.Some?
    ensures r.Success? ==> r.value.And? && r.value.left == left.value && r.value.right == right.value
    ensures r.Failure? ==> r.error == MissingOperand
  {
    if left.None? || right.None? then Failure(MissingOperand)
    else Success(And(left.value, right.value))
  }

  /** `isMatch`: a leaf answers for itself; an AND matches when both operands do. */
  function IsMatch<T>(m: Matcher, key: T, leafIsMatch: (LeafId, T) -> bool): bool {
    match m
    case Leaf(id) => leafIsMatch(id, key)
    case And(l, r) => IsMatch(l, key, leafIsMatch) && IsMatch(r, key, leafIsMatch)
  }

  /** The leaf matchers of a tree of ANDs, left to right. */
  function Leaves(m: Matcher): seq<LeafId> {
    match m
    case Leaf(id) => [id]
    case And(l, r) => Leaves(l) + Leaves(r)
  }

  /** An AND matches a key exactly when both of its operands match it. */
  lemma AndIsConjunction<T>(left: Matcher, right: Matcher, key: T, leafIsMatch: (LeafId, T) -> bool)
    ensures IsMatch(And(left, right), key, leafIsMatch)
            <==> IsMatch(left, key, leafIsMatch) && IsMatch(right, key, leafIsMatch)
  {
  }

  /** Every leaf of `a + b` matches exactly when every leaf of `a` and every leaf of `b` does. */
  lemma AllLeavesOfConcat<T>(a: seq<LeafId>, b: seq<LeafId>, key: T, leafIsMatch: (LeafId, T) -> bool)
    ensures (forall i :: 0 <= i < |a + b| ==> leafIsMatch((a + b)[i], key))
            <==> (forall i :: 0 <= i < |a| ==> leafIsMatch(a[i], key))
                 && (forall i :: 0 <= i < |b| ==> leafIsMatch(b[i], key))
  {
    if forall i :: 0 <= i < |a + b| ==> leafIsMatch((a + b)[i], key) {
      forall i | 0 <= i < |a| ensures leafIsMatch(a[i], key) {
        assert (a + b)[i] == a[i];
      }
      forall i | 0 <= i < |b| ensures leafIsMatch(b[i], key) {
        assert (a + b)[|a| + i] == b[i];
      }
    }
  }

  /** A tree of ANDs matches a key exactly when every one of its leaf matchers does. */
  lemma {:induction false} MatchesIffAllLeavesMatch<T>(m: Matcher, key: T, leafIsMatch: (LeafId, T) -> bool)
    ensures IsMatch(m, key, leafIsMatch) <==> forall i :: 0 <= i < |Leaves(m)| ==> leafIsMatch(Leaves(m)[i], key)
  {
    match m
    case Leaf(id) =>
      assert Leaves(m) == [id];
      if IsMatch(m, key, leafIsMatch) {
        forall i | 0 <= i < |Leaves(m)| ensures leafIsMatch(Leaves(m)[i], key) {
          assert i == 0;
        }
      } else {
        assert !leafIsMatch(Leaves(m)[0], key);
      }
    case And(l, r) =>
      MatchesIffAllLeavesMatch(l, key, leafIsMatch);
      MatchesIffAllLeavesMatch(r, key, leafIsMatch);
      assert Leaves(m) == Leaves(l) + Leaves(r);
      AllLeavesOfConcat(Leaves(l), Leaves(r), key, leafIsMatch);
  }

  /**
   * `equals(obj)`: false against null and against an object of another class; an AND
   * equals an AND whose left operands are equal and whose right operands are equal.
   */
  function Equals(m: Matcher, obj: Option<Matcher>): bool {
    match m
    case Leaf(id) => obj == Some(Leaf(id))
    case And(l, r) =>
      && obj.Some? && obj.value.And?
      && Equals(l, Some(obj.value.left))
      && Equals(r, Some(obj.value.right))
  }

  /** Equality never holds against null, and an AND never equals a matcher of another class. */
  lemma EqualsRefusesNullAndOtherClasses(m: Matcher, id: LeafId)
    requires m.And?
    ensures !Equals(m, None)
    ensures !Equals(m, Some(Leaf(id)))
  {
  }

  /** `equals` is structural: it holds exactly between identical matcher trees. */
  lemma {:induction false} EqualsIsStructural(a: Matcher, b: Matcher)
    ensures Equals(a, Some(b)) <==> a == b
  {
    match a
    case Leaf(_) =>
    case And(l, r) =>
      if b.And? {
        EqualsIsStructural(l, b.left);
        EqualsIsStructural(r, b.right);
      }
  }

  /** Two ANDs are equal exactly when their left operands are equal and their right operands are equal. */
  lemma AndEqualsIffOperandsEqual(a: Matcher, b: Matcher)
    requires a.And? && b.And?
    ensures Equals(a, Some(b)) <==> Equals(a.left, Some(b.left)) && Equals(a.right, Some(b.right))
  {
  }

  /** `equals` is reflexive (the `this == obj` shortcut agrees with it), symmetric and transitive. */
  lemma EqualsIsEquivalence(a: Matcher, b: Matcher, c: Matcher)
    ensures Equals(a, Some(a))
    ensures Equals(a, Some(b)) ==> Equals(b, Some(a))
    ensures Equals(a, Some(b)) && Equals(b, Some(c)) ==> Equals(a, Some(c))
  {
    EqualsIsStructural(a, a);
    EqualsIsStructural(a, b);
    EqualsIsStructural(b, a);
    EqualsIsStructural(b, c);
    EqualsIsStructural(a, c);
  }

  const Prime: int32 := 31

  /**
   * `hashCode`: starting from 1, `result = 31 * result + h(operand)` for the left and then
   * the right operand, each step in 32-bit `int` arithmetic.
   */
  function HashCode(m: Matcher, leafHash: LeafId -> int32): int32 {
    match m
    case Leaf(id) => leafHash(id)
    case And(l, r) =>
      var afterLeft := WrapInt32(Prime as int * 1 + HashCode(l, leafHash) as int);
      WrapInt32(Prime as int * afterLeft as int + HashCode(r, leafHash) as int)
  }

  /** Equal matchers have equal hash codes. */
  lemma EqualMatchersHashAlike(a: Matcher, b: Matcher, leafHash: LeafId -> int32)
    requires Equals(a, Some(b))
    ensures HashCode(a, leafHash) == HashCode(b, leafHash)
  {
    EqualsIsStructural(a, b);
  }

  /**
   * The hash of an AND is Java's `31 * (31 * 1 + h(left)) + h(right)` evaluated in `int`
   * arithmetic, for all operand hashes: wrapping after each step is wrapping once at the end.
   */
  lemma HashFormula(l: Matcher, r: Matcher, leafHash: LeafId -> int32)
    ensures HashCode(And(l, r), leafHash)
            == WrapInt32(31 * (31 * 1 + HashCode(l, leafHash) as int) + HashCode(r, leafHash) as int)
  {
    var hl, hr := HashCode(l, leafHash) as int, HashCode(r, leafHash) as int;
    var afterLeft := WrapInt32(31 + hl) as int;
    var stepwise := WrapInt32(31 * afterLeft + hr) as int;
    var once := WrapInt32(31 * (31 + hl) + hr) as int;
    // Both are congruent to the exact value modulo 2^32 and lie in the `int` range.
    var k1 := (31 + hl - afterLeft) / TwoTo32;
    assert 31 + hl - afterLeft == k1 * TwoTo32;
    var exact := 31 * (31 + hl) + hr;
    assert 31 * afterLeft + hr == exact - 31 * k1 * TwoTo32;
    var k2 := (31 * afterLeft + hr - stepwise) / TwoTo32;
    var k3 := (exact - once) / TwoTo32;
    assert 31 * afterLeft + hr - stepwise == k2 * TwoTo32;
    assert exact - once == k3 * TwoTo32;
    assert once - stepwise == (k2 + 31 * k1 - k3) * TwoTo32;
    assert -TwoTo32 < once - stepwise < TwoTo32;
    assert k2 + 31 * k1 - k3 == 0;
  }

  /** Without overflow, the hash of an AND is exactly 31 * (31 * 1 + h(left)) + h(right). */
  lemma HashOfSmallOperands(l: Matcher, r: Matcher, leafHash: LeafId -> int32)
    requires 0 <= HashCode(l, leafHash) < 1000 && 0 <= HashCode(r, leafHash) < 1000
    ensures HashCode(And(l, r), leafHash) as int
            == 31 * (31 * 1 + HashCode(l, leafHash) as int) + HashCode(r, leafHash) as int
  {
    HashFormula(l, r, leafHash);
  }

  /** The arithmetic wraps: a left operand hashing to the largest `int` gives a negative hash. */
  lemma HashWrapsAround(leafHash: LeafId -> int32)
    requires leafHash(0) == 0x7fff_ffff && leafHash(1) == 0
    ensures HashCode(And(Leaf(0), Leaf(1)), leafHash) as int == 930 - TwoTo31
  {
    HashFormula(Leaf(0), Leaf(1), leafHash);
    assert 31 * (31 * 1 + 0x7fff_ffff) + 0 == 930 - TwoTo31 + 16 * TwoTo32;
    assert WrapInt32(31 * (31 * 1 + 0x7fff_ffff) + 0) as int == 930 - TwoTo31;
  }
}
