/**
 * Python's `sorted(xs)[-1]`: the greatest element under `<`.
 *
 * Strings compare lexicographically by code point, and a `pathlib` path
 * compares its list of components lexicographically, each component as a
 * string. Both are instances of the lexicographic extension of a strict
 * total order, defined here once.
 */
module Order {

  ghost predicate Irreflexive<T(!new)>(lt: (T, T) -> bool) {
    forall x :: !lt(x, x)
  }

  ghost predicate Transitive<T(!new)>(lt: (T, T) -> bool) {
    forall x, y, z :: lt(x, y) && lt(y, z) ==> lt(x, z)
  }

  ghost predicate Trichotomous<T(!new)>(lt: (T, T) -> bool) {
    forall x, y :: x == y || lt(x, y) || lt(y, x)
  }

  ghost predicate StrictTotalOrder<T(!new)>(lt: (T, T) -> bool) {
    Irreflexive(lt) && Transitive(lt) && Trichotomous(lt)
  }

  /** `a < b` for sequences compared element by element; a proper prefix is smaller. */
  predicate LexLess<T(==)>(a: seq<T>, b: seq<T>, lt: (T, T) -> bool) {
    if |a| == 0 then |b| > 0
    else if |b| == 0 then false
    else lt(a[0], b[0]) || (a[0] == b[0] && LexLess(a[1..], b[1..], lt))
  }

  lemma {:induction false} LexIrreflexive<T(!new)>(a: seq<T>, lt: (T, T) -> bool)
    requires Irreflexive(lt)
    ensures !LexLess(a, a, lt)
  {
    if |a| > 0 {
      LexIrreflexive(a[1..], lt);
    }
  }

  lemma {:induction false} LexTransitive<T(!new)>(a: seq<T>, b: seq<T>, c: seq<T>, lt: (T, T) -> bool)
    requires Transitive(lt)
    requires LexLess(a, b, lt) && LexLess(b, c, lt)
    ensures LexLess(a, c, lt)
  {
    if |a| > 0 && !lt(a[0], b[0]) && !lt(b[0], c[0]) {
      LexTransitive(a[1..], b[1..], c[1..], lt);
    }
  }

  lemma {:induction false} LexTrichotomous<T(!new)>(a: seq<T>, b: seq<T>, lt: (T, T) -> bool)
    requires Trichotomous(lt)
    ensures a == b || LexLess(a, b, lt) || LexLess(b, a, lt)
  {
    if |a| > 0 && |b| > 0 && a[0] == b[0] {
      LexTrichotomous(a[1..], b[1..], lt);
      if a[1..] == b[1..] {
        assert a == [a[0]] + a[1..] && b == [b[0]] + b[1..];
      }
    }
  }

  /** The lexicographic extension of a strict total order is one. */
  lemma LexIsStrictTotal<T(!new)>(lt: (T, T) -> bool)
    requires StrictTotalOrder(lt)
    ensures StrictTotalOrder((a: seq<T>, b: seq<T>) => LexLess(a, b, lt))
  {
    var lex := (a: seq<T>, b: seq<T>) => LexLess(a, b, lt);
    forall a: seq<T> ensures !lex(a, a) {
      LexIrreflexive(a, lt);
    }
    forall a: seq<T>, b: seq<T>, c: seq<T> | lex(a, b) && lex(b, c) ensures lex(a, c) {
      LexTransitive(a, b, c, lt);
    }
    forall a: seq<T>, b: seq<T> ensures a == b || lex(a, b) || lex(b, a) {
      LexTrichotomous(a, b, lt);
    }
  }

  /** The last element `sorted(s)` would produce: a member that nothing in `s` exceeds. */
  function Greatest<T(!new)>(s: seq<T>, lt: (T, T) -> bool): (r: T)
    requires |s| > 0 && StrictTotalOrder(lt)
    ensures r in s
    ensures forall x :: x in s ==> !lt(r, x)
  {
    if |s| == 1 then s[0]
    else
      var m := Greatest(s[1..], lt);
      assert forall x :: x in s ==> x == s[0] || x in s[1..];
      if lt(m, s[0]) then s[0] else m
  }

  /** Under a total order the greatest element is unique, so it is what `sorted(s)[-1]` returns. */
  lemma GreatestUnique<T(!new)>(s: seq<T>, lt: (T, T) -> bool, a: T, b: T)
    requires StrictTotalOrder(lt)
    requires a in s && forall x :: x in s ==> !lt(a, x)
    requires b in s && forall x :: x in s ==> !lt(b, x)
    ensures a == b
  {
  }
}
