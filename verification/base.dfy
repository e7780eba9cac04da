/** Small value types and sequence predicates shared by every module. */
module Base {

  /** A value that may be absent: Python's `None`, a missing dictionary key. */
  datatype Option<T> = None | Some(value: T)

  /** The value of a call, or the exception it raises. */
  datatype Result<T, E> = Ok(value: T) | Err(error: E)

  /** No element occurs twice. */
  ghost predicate NoDup<T>(s: seq<T>) {
    forall i, j :: 0 <= i < j < |s| ==> s[i] != s[j]
  }

  /** `sub` can be obtained from `s` by deleting elements, keeping the order. */
  ghost predicate IsSubsequence<T(!new)>(sub: seq<T>, s: seq<T>) {
    exists idx: seq<nat> ::
      && |idx| == |sub|
      && (forall k :: 0 <= k < |idx| ==> idx[k] < |s| && s[idx[k]] == sub[k])
      && (forall k, l :: 0 <= k < l < |idx| ==> idx[k] < idx[l])
  }

  /** `n` copies of `x`. */
  function Repeat<T>(x: T, n: nat): (r: seq<T>)
    ensures |r| == n && forall i :: 0 <= i < n ==> r[i] == x
  {
    if n == 0 then [] else Repeat(x, n - 1) + [x]
  }

  /** Sequences built by appending keep the subsequence relation. */
  lemma SubsequenceSnoc<T(!new)>(sub: seq<T>, s: seq<T>, x: T, keep: bool)
    requires IsSubsequence(sub, s)
    ensures IsSubsequence(if keep then sub + [x] else sub, s + [x])
  {
    var idx: seq<nat> :| && |idx| == |sub|
                         && (forall k :: 0 <= k < |idx| ==> idx[k] < |s| && s[idx[k]] == sub[k])
                         && (forall k, l :: 0 <= k < l < |idx| ==> idx[k] < idx[l]);
    var s' := s + [x];
    if keep {
      var idx' := idx + [|s|];
      var sub' := sub + [x];
      assert forall k :: 0 <= k < |idx'| ==> idx'[k] < |s'| && s'[idx'[k]] == sub'[k];
      assert forall k, l :: 0 <= k < l < |idx'| ==> idx'[k] < idx'[l];
    } else {
      assert forall k :: 0 <= k < |idx| ==> idx[k] < |s'| && s'[idx[k]] == sub[k];
    }
  }

  /** `[f(x) for x in s]`. */
  function Map<A, B>(f: A -> B, s: seq<A>): (r: seq<B>)
    ensures |r| == |s|
    ensures forall i :: 0 <= i < |s| ==> r[i] == f(s[i])
  {
    if s == [] then [] else [f(s[0])] + Map(f, s[1..])
  }

  lemma MapSnoc<A, B>(f: A -> B, s: seq<A>, x: A)
    ensures Map(f, s + [x]) == Map(f, s) + [f(x)]
  {
  }

  lemma AppendAssoc<T>(a: seq<T>, b: seq<T>, c: seq<T>)
    ensures (a + b) + c == a + (b + c)
  {
  }

  /** A non-empty sequence is its front followed by its last element. */
  lemma LastSplit<T>(s: seq<T>)
    requires s != []
    ensures s[..|s| - 1] + [s[|s| - 1]] == s
  {
  }

  /** The empty sequence is a subsequence of anything. */
  lemma SubsequenceEmpty<T(!new)>(s: seq<T>)
    ensures IsSubsequence([], s)
  {
    var idx: seq<nat> := [];
    assert |idx| == 0;
  }

  /** A sequence without repetitions has as many distinct elements as it has positions. */
  lemma {:induction false} DistinctCard<T>(s: seq<T>)
    requires NoDup(s)
    ensures |set x | x in s| == |s|
  {
    if s != [] {
      var p := s[..|s| - 1];
      var x := s[|s| - 1];
      assert forall i :: 0 <= i < |p| ==> p[i] == s[i];
      DistinctCard(p);
      assert forall i :: 0 <= i < |p| ==> p[i] == s[i] != s[|s| - 1];
      assert (set y | y in s) == (set y | y in p) + {x} by {
        LastSplit(s);
      }
    }
  }
}
