/** Ordered de-duplication: spreading a JavaScript Set built from a sequence
    back into an array. A Set remembers the order in which elements were
    first inserted and ignores an element it already holds, so the array
    keeps the first occurrence of every element, in first-seen order. Set
    membership uses SameValueZero, which on the modelled values is plain
    equality. */
module OrderedDedup {

  predicate NoDuplicates<T(==)>(s: seq<T>) {
    forall i, j :: 0 <= i < j < |s| ==> s[i] != s[j]
  }

  /** Position of the first occurrence of `x` in `s`. */
  function IndexOf<T(==)>(s: seq<T>, x: T): (i: nat)
    requires x in s
    ensures i < |s| && s[i] == x
    ensures x !in s[..i]
  {
    if x in s[..|s| - 1] then IndexOf(s[..|s| - 1], x) else |s| - 1
  }

  /** Inserting the elements of `s` one by one into an insertion-ordered set
      and reading the set back. */
  function Dedup<T(==,!new)>(s: seq<T>): (r: seq<T>)
    ensures NoDuplicates(r)
    ensures forall x :: x in r <==> x in s
    ensures |r| <= |s|
  {
    if |s| == 0 then []
    else
      var r' := Dedup(s[..|s| - 1]);
      if s[|s| - 1] in r' then r' else r' + [s[|s| - 1]]
  }

  /** One more element: appended when new, ignored when already present. */
  lemma DedupAppendOne<T(!new)>(s: seq<T>, x: T)
    ensures Dedup(s + [x]) == if x in s then Dedup(s) else Dedup(s) + [x]
  {
  }

  lemma IndexOfInPrefix<T>(a: seq<T>, y: T, x: T)
    requires x in a
    ensures IndexOf(a + [y], x) == IndexOf(a, x)
  {
  }

  /** `g` comes before `h` in the de-duplicated sequence exactly when the first
      occurrence of `g` in the input comes before the first occurrence of `h`. */
  lemma {:induction false} DedupKeepsFirstSeenOrder<T(!new)>(s: seq<T>, g: T, h: T)
    requires g in s && h in s
    ensures IndexOf(Dedup(s), g) < IndexOf(Dedup(s), h) <==> IndexOf(s, g) < IndexOf(s, h)
  {
    var n := |s|;
    var p, last := s[..n - 1], s[n - 1];
    assert s == p + [last];
    var r' := Dedup(p);
    if last in r' {
      assert g in p && h in p;
      assert IndexOf(s, g) == IndexOf(p, g);
      assert IndexOf(s, h) == IndexOf(p, h);
      DedupKeepsFirstSeenOrder(p, g, h);
    } else {
      assert Dedup(s) == r' + [last];
      if g in p {
        IndexOfInPrefix(r', last, g);
      } else {
        assert g == last;
        assert IndexOf(Dedup(s), g) == |r'|;
      }
      if h in p {
        IndexOfInPrefix(r', last, h);
      } else {
        assert h == last;
        assert IndexOf(Dedup(s), h) == |r'|;
      }
      if g in p && h in p {
        DedupKeepsFirstSeenOrder(p, g, h);
      }
    }
  }

  /** A sequence that already has no duplicates is left as it is. */
  lemma {:induction false} DedupOfDistinct<T(!new)>(s: seq<T>)
    requires NoDuplicates(s)
    ensures Dedup(s) == s
  {
    if |s| > 0 {
      var p := s[..|s| - 1];
      DedupOfDistinct(p);
      assert s[|s| - 1] !in p;
      assert s == p + [s[|s| - 1]];
    }
  }

  /** Elements already seen add nothing: de-duplicating `a + b` when every
      element of `b` occurs in `a` gives the de-duplication of `a`. */
  lemma {:induction false} DedupIgnoresRepeats<T(!new)>(a: seq<T>, b: seq<T>)
    requires forall x :: x in b ==> x in a
    ensures Dedup(a + b) == Dedup(a)
  {
    if |b| > 0 {
      var b' := b[..|b| - 1];
      assert (a + b)[..|a + b| - 1] == a + b';
      DedupIgnoresRepeats(a, b');
    } else {
      assert a + b == a;
    }
  }

  /** The construction as the runtime performs it: one pass over the input,
      with a set of elements seen so far. */
  method DistinctInOrder<T(==,!new)>(s: seq<T>) returns (r: seq<T>)
    ensures r == Dedup(s)
  {
    var seen: set<T> := {};
    r := [];
    var i := 0;
    while i < |s|
      invariant 0 <= i <= |s|
      invariant r == Dedup(s[..i])
      invariant forall x :: x in seen <==> x in r
    {
      assert s[..i + 1][..i] == s[..i];
      if s[i] !in seen {
        r := r + [s[i]];
        seen := seen + {s[i]};
      }
      i := i + 1;
    }
    assert s[..i] == s;
  }
}
