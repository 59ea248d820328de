/**
 * The array operations the data-access layer relies on, as functions over
 * sequences: `Array.prototype.filter` with a predicate, `indexOf`, and the
 * `filter((v, i) => a.indexOf(v) == i)` idiom that removes duplicates.
 */
module Sequences {

  /** `s` can be obtained from `t` by deleting elements, keeping the order of the rest. */
  predicate IsSubsequence<T(==,!new)>(s: seq<T>, t: seq<T>)
    decreases |t|
  {
    s == [] ||
    (t != [] &&
     ((s[0] == t[0] && IsSubsequence(s[1..], t[1..])) || IsSubsequence(s, t[1..])))
  }

  /** No value occurs twice in `s`. */
  predicate NoDuplicates<T(==,!new)>(s: seq<T>) {
    forall i, j :: 0 <= i < j < |s| ==> s[i] != s[j]
  }

  /**
   * `Array.prototype.filter`: the elements of `s` that satisfy `f`, in the
   * order of `s`. The result is an order-preserving subsequence of `s` and
   * holds every element exactly as often as `s` does when `f` accepts it,
   * and not at all otherwise.
   */
  function Filter<T(==,!new)>(f: T -> bool, s: seq<T>): (r: seq<T>)
    ensures |r| <= |s|
    ensures IsSubsequence(r, s)
    ensures forall x :: multiset(r)[x] == if f(x) then multiset(s)[x] else 0
    ensures forall x :: x in r <==> x in s && f(x)
  {
    if s == [] then []
    else
      assert s == [s[0]] + s[1..];
      var rest := Filter(f, s[1..]);
      if f(s[0]) then
        assert ([s[0]] + rest)[1..] == rest;
        [s[0]] + rest
      else rest
  }

  /** Filtering twice is filtering once by the conjunction of the two predicates. */
  lemma {:induction false} FilterTwice<T(!new)>(f: T -> bool, g: T -> bool, h: T -> bool, s: seq<T>)
    requires forall x :: h(x) == (f(x) && g(x))
    ensures Filter(g, Filter(f, s)) == Filter(h, s)
    decreases |s|
  {
    if s != [] {
      FilterTwice(f, g, h, s[1..]);
      var rest := Filter(f, s[1..]);
      if f(s[0]) {
        assert Filter(f, s) == [s[0]] + rest;
        assert ([s[0]] + rest)[1..] == rest;
      }
    }
  }

  /** A predicate that accepts everything leaves the sequence unchanged. */
  lemma {:induction false} FilterAll<T(!new)>(f: T -> bool, s: seq<T>)
    requires forall x :: f(x)
    ensures Filter(f, s) == s
    decreases |s|
  {
    if s != [] {
      FilterAll(f, s[1..]);
      assert [s[0]] + s[1..] == s;
    }
  }

  /**
   * `Array.prototype.indexOf` with strict equality: the position of the first
   * occurrence of `v` in `s`, or -1 when `v` does not occur.
   */
  function IndexOf<T(==,!new)>(s: seq<T>, v: T): (i: int)
    ensures -1 <= i < |s|
    ensures i == -1 <==> v !in s
    ensures i >= 0 ==> s[i] == v && v !in s[..i]
    decreases |s|
  {
    if s == [] then -1
    else if s[0] == v then 0
    else
      var j := IndexOf(s[1..], v);
      assert j >= 0 ==> s[..j + 1] == [s[0]] + s[1..][..j];
      assert s == [s[0]] + s[1..];
      if j == -1 then -1 else j + 1
  }

  /** A value that occurs before position `k` is first found before `k`. */
  lemma IndexOfBefore<T(!new)>(s: seq<T>, v: T, k: nat)
    requires k <= |s| && v in s[..k]
    ensures 0 <= IndexOf(s, v) < k
  {
  }

  /**
   * `s.filter((v, i) => s.indexOf(v) == i)` restricted to the first `n`
   * positions: the positions whose value is first found there. The result
   * holds exactly the values of `s[..n]`, each once, ordered by where they
   * first occur in `s`.
   */
  function KeepFirstUpTo<T(==,!new)>(s: seq<T>, n: nat): (r: seq<T>)
    requires n <= |s|
    ensures forall v :: v in r <==> v in s[..n]
    ensures forall i :: 0 <= i < |r| ==> IndexOf(s, r[i]) < n
    ensures forall i, j :: 0 <= i < j < |r| ==> IndexOf(s, r[i]) < IndexOf(s, r[j])
    decreases n
  {
    if n == 0 then []
    else
      var prev := KeepFirstUpTo(s, n - 1);
      assert s[..n] == s[..n - 1] + [s[n - 1]];
      if IndexOf(s, s[n - 1]) == n - 1 then prev + [s[n - 1]]
      else
        IndexOfBefore(s, s[n - 1], n);
        assert s[IndexOf(s, s[n - 1])] == s[n - 1];
        assert s[n - 1] in s[..n - 1];
        prev
  }

  /**
   * The de-duplication idiom `s.filter((v, i) => s.indexOf(v) == i)` over the
   * whole array.
   */
  function KeepFirstOccurrences<T(==,!new)>(s: seq<T>): (r: seq<T>)
  {
    KeepFirstUpTo(s, |s|)
  }

  /**
   * What the de-duplication promises: no value twice, exactly the values of
   * the input, ordered by first occurrence.
   */
  lemma KeepFirstOccurrencesSpec<T(!new)>(s: seq<T>)
    ensures NoDuplicates(KeepFirstOccurrences(s))
    ensures forall v :: v in KeepFirstOccurrences(s) <==> v in s
    ensures forall i, j :: 0 <= i < j < |KeepFirstOccurrences(s)| ==>
              IndexOf(s, KeepFirstOccurrences(s)[i]) < IndexOf(s, KeepFirstOccurrences(s)[j])
  {
    assert s[..|s|] == s;
  }
}
