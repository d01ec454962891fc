/** Small helpers shared by every part of the model. */
module Common {

  datatype Option<+T> = None | Some(value: T)

  ghost predicate Distinct<T(!new)>(s: seq<T>) {
    forall i, j :: 0 <= i < j < |s| ==> s[i] != s[j]
  }

  /** Nothing is left of the string when white space is trimmed. */
  predicate IsBlank(s: string) {
    forall i :: 0 <= i < |s| ==> s[i] == ' ' || '\t' <= s[i] <= '\r'
  }

  /** The elements of a set in some order without repetition. The source sorts
      names here; nothing in the model depends on which order is picked. */
  method Enumerate<T(==, !new)>(elements: set<T>) returns (ordered: seq<T>)
    ensures Distinct(ordered)
    ensures forall x :: x in ordered <==> x in elements
    ensures |ordered| == |elements|
  {
    ordered := [];
    var rest := elements;
    while rest != {}
      invariant Distinct(ordered)
      invariant forall x :: x in ordered <==> x in elements && x !in rest
      invariant rest <= elements
      invariant |ordered| + |rest| == |elements|
      decreases rest
    {
      var x :| x in rest;
      ordered := ordered + [x];
      rest := rest - {x};
    }
  }

  /** Rearranging a sequence keeps it free of repetition. */
  lemma SameDistinct<T(!new)>(a: seq<T>, b: seq<T>)
    requires Distinct(a) && multiset(a) == multiset(b)
    ensures Distinct(b)
  {
    forall i, k | 0 <= i < k < |b| ensures b[i] != b[k] {
      if b[i] == b[k] {
        AtLeastTwice(b, i, k);
        AtMostOnce(a, b[i]);
      }
    }
  }

  lemma AtLeastTwice<T>(s: seq<T>, i: nat, k: nat)
    requires i < k < |s| && s[i] == s[k]
    ensures multiset(s)[s[i]] >= 2
  {
    assert s == s[..k] + [s[k]] + s[k + 1..];
    assert s[i] in s[..k];
    assert s[i] in multiset(s[..k]);
  }

  lemma {:induction false} AtMostOnce<T(!new)>(s: seq<T>, x: T)
    requires Distinct(s)
    ensures multiset(s)[x] <= 1
  {
    if s != [] {
      var n := |s|;
      AtMostOnce(s[..n - 1], x);
      assert s == s[..n - 1] + [s[n - 1]];
      assert x in multiset(s[..n - 1]) <==> x in s[..n - 1];
    }
  }
}
