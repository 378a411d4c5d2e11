/** Generic sequence helpers: JavaScript's `Array.prototype.filter`, the
    concatenation that repeated `push(...list)` performs, and the
    "is a subsequence of" relation used to state ordering guarantees. */
module Seqs {
  import opened Wrappers

  function Last<T>(s: seq<T>): T
    requires |s| > 0
  {
    s[|s| - 1]
  }

  function Init<T>(s: seq<T>): seq<T>
    requires |s| > 0
  {
    s[..|s| - 1]
  }

  /** `s.filter(p)`: the elements satisfying `p`, in their original order. */
  function Filter<T>(p: T -> bool, s: seq<T>): (r: seq<T>)
    ensures |r| <= |s|
    decreases |s|
  {
    if s == [] then []
    else if p(Last(s)) then Filter(p, Init(s)) + [Last(s)]
    else Filter(p, Init(s))
  }

  /** The concatenation, in order, of the lists that are present; a
      missing list contributes nothing. */
  function ConcatPresent<T>(lists: seq<Option<seq<T>>>): seq<T>
    decreases |lists|
  {
    if lists == [] then []
    else match Last(lists)
      case Some(l) => ConcatPresent(Init(lists)) + l
      case None => ConcatPresent(Init(lists))
  }

  /** Extending a prefix by one element, after some leading sequence. */
  lemma PrefixStep<T>(a: seq<T>, s: seq<T>, j: nat)
    requires j < |s|
    ensures a + s[..j + 1] == (a + s[..j]) + [s[j]]
  {
    assert s[..j + 1] == s[..j] + [s[j]];
  }

  /** `key` strictly increases along `s`. */
  predicate IncreasingBy<T>(key: T -> int, s: seq<T>) {
    forall i, j :: 0 <= i < j < |s| ==> key(s[i]) < key(s[j])
  }

  /** An element whose key exceeds every key in `s` extends `s` in order. */
  lemma AppendIncreasing<T>(key: T -> int, s: seq<T>, x: T)
    requires IncreasingBy(key, s)
    requires forall y :: y in s ==> key(y) < key(x)
    ensures IncreasingBy(key, s + [x])
  {
    var a := s + [x];
    forall i, j | 0 <= i < j < |a|
      ensures key(a[i]) < key(a[j])
    {
      assert a[i] == s[i];
      if j < |s| {
        assert a[j] == s[j];
      }
    }
  }

  /** `a` is obtained from `b` by deleting elements, keeping the order of
      the rest. */
  ghost predicate SubseqOf<T>(a: seq<T>, b: seq<T>)
    decreases |b|
  {
    if a == [] then true
    else if b == [] then false
    else (Last(a) == Last(b) && SubseqOf(Init(a), Init(b))) || SubseqOf(a, Init(b))
  }

  lemma {:induction false} FilterConcat<T>(p: T -> bool, a: seq<T>, b: seq<T>)
    ensures Filter(p, a + b) == Filter(p, a) + Filter(p, b)
    decreases |b|
  {
    if b != [] {
      assert Init(a + b) == a + Init(b);
      assert Last(a + b) == Last(b);
      FilterConcat(p, a, Init(b));
    } else {
      assert a + b == a;
    }
  }

  /** Filtering keeps exactly the elements that satisfy the predicate. */
  lemma {:induction false} FilterMembers<T>(p: T -> bool, s: seq<T>, x: T)
    ensures x in Filter(p, s) <==> x in s && p(x)
    decreases |s|
  {
    if s != [] {
      FilterMembers(p, Init(s), x);
      assert s == Init(s) + [Last(s)];
    }
  }

  /** An element is in the concatenation exactly when some present list
      holds it. */
  lemma {:induction false} ConcatPresentMembers<T>(lists: seq<Option<seq<T>>>, x: T)
    ensures x in ConcatPresent(lists) <==>
      exists k :: 0 <= k < |lists| && lists[k].Some? && x in lists[k].value
    decreases |lists|
  {
    if lists != [] {
      var init := Init(lists);
      ConcatPresentMembers(init, x);
      assert forall k :: 0 <= k < |init| ==> init[k] == lists[k];
      if x in ConcatPresent(lists) && x !in ConcatPresent(init) {
        assert lists[|init|].Some? && x in lists[|init|].value;
      }
    }
  }

  /** Deleting the last element of the longer sequence keeps a subsequence
      relation that did not use it. */
  lemma SubseqDropLast<T>(a: seq<T>, b: seq<T>)
    requires |b| > 0 && SubseqOf(a, Init(b))
    ensures SubseqOf(a, b)
  {
  }

  lemma {:induction false} SubseqTransitive<T>(a: seq<T>, b: seq<T>, c: seq<T>)
    requires SubseqOf(a, b) && SubseqOf(b, c)
    ensures SubseqOf(a, c)
    decreases |c|
  {
    if a != [] {
      assert b != [] && c != [];
      if Last(b) == Last(c) && SubseqOf(Init(b), Init(c)) {
        if Last(a) == Last(b) && SubseqOf(Init(a), Init(b)) {
          SubseqTransitive(Init(a), Init(b), Init(c));
        } else {
          assert SubseqOf(a, Init(b));
          SubseqTransitive(a, Init(b), Init(c));
        }
      } else {
        SubseqTransitive(a, b, Init(c));
      }
    }
  }
}
