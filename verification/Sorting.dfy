/** A stable sort by a given order, standing for the original language's `sorted`, and the order
    of strings by code point. */
module Sorting {
  import opened SeqLaws

  ghost predicate TotalPreorder<T(!new)>(le: (T, T) -> bool) {
    && (forall a, b :: le(a, b) || le(b, a))
    && (forall a, b, c :: le(a, b) && le(b, c) ==> le(a, c))
  }

  ghost predicate SortedBy<T>(xs: seq<T>, le: (T, T) -> bool) {
    forall i, j :: 0 <= i < j < |xs| ==> le(xs[i], xs[j])
  }

  function Insert<T>(x: T, xs: seq<T>, le: (T, T) -> bool): (r: seq<T>)
    ensures |r| == |xs| + 1
  {
    if xs == [] || le(x, xs[0]) then [x] + xs else [xs[0]] + Insert(x, xs[1..], le)
  }

  /** Equal elements keep their order: each is inserted before the ones that follow it. */
  function Sort<T>(xs: seq<T>, le: (T, T) -> bool): (r: seq<T>)
    ensures |r| == |xs|
  {
    if xs == [] then [] else Insert(xs[0], Sort(xs[1..], le), le)
  }

  lemma {:induction false} InsertContents<T>(x: T, xs: seq<T>, le: (T, T) -> bool)
    ensures multiset(Insert(x, xs, le)) == multiset{x} + multiset(xs)
  {
    if xs == [] || le(x, xs[0]) {
    } else {
      InsertContents(x, xs[1..], le);
      assert xs == [xs[0]] + xs[1..];
    }
  }

  lemma {:induction false} SortContents<T>(xs: seq<T>, le: (T, T) -> bool)
    ensures multiset(Sort(xs, le)) == multiset(xs)
  {
    if xs != [] {
      SortContents(xs[1..], le);
      InsertContents(xs[0], Sort(xs[1..], le), le);
      assert xs == [xs[0]] + xs[1..];
    }
  }

  lemma SortMembers<T>(xs: seq<T>, le: (T, T) -> bool)
    ensures forall x :: x in Sort(xs, le) <==> x in xs
  {
    SortContents(xs, le);
    forall x ensures x in Sort(xs, le) <==> x in xs {
      assert x in Sort(xs, le) <==> x in multiset(Sort(xs, le));
      assert x in xs <==> x in multiset(xs);
    }
  }

  lemma {:induction false} InsertSorted<T(!new)>(x: T, xs: seq<T>, le: (T, T) -> bool)
    requires TotalPreorder(le) && SortedBy(xs, le)
    ensures SortedBy(Insert(x, xs, le), le)
  {
    if xs == [] || le(x, xs[0]) {
      forall j | 0 <= j < |xs| ensures le(x, xs[j]) {
        assert j == 0 || le(xs[0], xs[j]);
      }
    } else {
      InsertSorted(x, xs[1..], le);
      InsertContents(x, xs[1..], le);
      var rest := Insert(x, xs[1..], le);
      forall j | 0 <= j < |rest| ensures le(xs[0], rest[j]) {
        assert rest[j] in multiset(rest);
        if rest[j] != x {
          assert rest[j] in xs[1..];
        }
      }
    }
  }

  lemma {:induction false} SortSorted<T(!new)>(xs: seq<T>, le: (T, T) -> bool)
    requires TotalPreorder(le)
    ensures SortedBy(Sort(xs, le), le)
  {
    if xs != [] {
      SortSorted(xs[1..], le);
      InsertSorted(xs[0], Sort(xs[1..], le), le);
    }
  }

  ghost predicate Antisymmetric<T(!new)>(le: (T, T) -> bool) {
    forall a, b :: le(a, b) && le(b, a) ==> a == b
  }

  lemma SameHead<T(!new)>(a: seq<T>, b: seq<T>, le: (T, T) -> bool)
    requires TotalPreorder(le) && Antisymmetric(le) && a != [] && b != []
    requires SortedBy(a, le) && SortedBy(b, le) && multiset(a) == multiset(b)
    ensures a[0] == b[0]
  {
    assert a[0] in multiset(b) && b[0] in multiset(a);
    var i :| 0 <= i < |b| && b[i] == a[0];
    var j :| 0 <= j < |a| && a[j] == b[0];
    assert le(a[0], a[j]) && le(b[0], b[i]);
  }

  lemma SameLength<T>(a: seq<T>, b: seq<T>)
    requires multiset(a) == multiset(b)
    ensures |a| == |b|
  {
    assert |a| == |multiset(a)| == |multiset(b)| == |b|;
  }

  lemma TailContents<T>(a: seq<T>)
    requires a != []
    ensures multiset(a[1..]) == multiset(a) - multiset{a[0]}
  {
    HeadTail(a);
  }

  /** By a total order, the same elements sort to one list only. */
  lemma {:induction false} SortedUnique<T(!new)>(a: seq<T>, b: seq<T>, le: (T, T) -> bool)
    requires TotalPreorder(le) && Antisymmetric(le)
    requires SortedBy(a, le) && SortedBy(b, le) && multiset(a) == multiset(b)
    ensures a == b
  {
    SameLength(a, b);
    if a != [] {
      SameHead(a, b, le);
      TailContents(a);
      TailContents(b);
      SortedUnique(a[1..], b[1..], le);
      HeadTail(a);
      HeadTail(b);
    }
  }

  // ----- stability -------------------------------------------------------------------------

  /** The elements that compare as equal to `x`, in their order. */
  function Like<T>(xs: seq<T>, x: T, le: (T, T) -> bool): seq<T> {
    if xs == [] then []
    else (if le(x, xs[0]) && le(xs[0], x) then [xs[0]] else []) + Like(xs[1..], x, le)
  }

  lemma {:induction false} InsertLike<T(!new)>(y: T, ys: seq<T>, x: T, le: (T, T) -> bool)
    requires TotalPreorder(le)
    ensures Like(Insert(y, ys, le), x, le) == Like([y] + ys, x, le)
  {
    assert ([y] + ys)[1..] == ys;
    if ys != [] && !le(y, ys[0]) {
      InsertLike(y, ys[1..], x, le);
      assert ([y] + ys[1..])[1..] == ys[1..];
      var rest := Insert(y, ys[1..], le);
      assert ([ys[0]] + rest)[1..] == rest;
    }
  }

  /** Elements that compare as equal keep their order. */
  lemma {:induction false} SortStable<T(!new)>(xs: seq<T>, x: T, le: (T, T) -> bool)
    requires TotalPreorder(le)
    ensures Like(Sort(xs, le), x, le) == Like(xs, x, le)
  {
    if xs != [] {
      SortStable(xs[1..], x, le);
      var rest := Sort(xs[1..], le);
      InsertLike(xs[0], rest, x, le);
      assert ([xs[0]] + rest)[1..] == rest;
    }
  }

  // ----- sorting two lists whose elements are related pairwise -----------------------------

  ghost predicate Pairwise<T>(xs: seq<T>, ys: seq<T>, rel: (T, T) -> bool) {
    |xs| == |ys| && forall i :: 0 <= i < |xs| ==> rel(xs[i], ys[i])
  }

  /** Related elements compare alike. */
  ghost predicate Respects<T(!new)>(le: (T, T) -> bool, rel: (T, T) -> bool) {
    forall a, a', b, b' :: rel(a, a') && rel(b, b') ==> le(a, b) == le(a', b')
  }

  lemma PairwiseCons<T>(x: T, y: T, xs: seq<T>, ys: seq<T>, rel: (T, T) -> bool)
    requires rel(x, y) && Pairwise(xs, ys, rel)
    ensures Pairwise([x] + xs, [y] + ys, rel)
  {
  }

  lemma PairwiseTail<T>(xs: seq<T>, ys: seq<T>, rel: (T, T) -> bool)
    requires xs != [] && Pairwise(xs, ys, rel)
    ensures ys != [] && rel(xs[0], ys[0]) && Pairwise(xs[1..], ys[1..], rel)
  {
  }

  lemma RespectsAt<T(!new)>(le: (T, T) -> bool, rel: (T, T) -> bool, a: T, a': T, b: T, b': T)
    requires Respects(le, rel) && rel(a, a') && rel(b, b')
    ensures le(a, b) == le(a', b')
  {
  }

  lemma {:induction false} InsertPairwise<T(!new)>(x: T, y: T, xs: seq<T>, ys: seq<T>, le: (T, T) -> bool, rel: (T, T) -> bool)
    requires Respects(le, rel) && Pairwise(xs, ys, rel) && rel(x, y)
    ensures Pairwise(Insert(x, xs, le), Insert(y, ys, le), rel)
  {
    PairwiseCons(x, y, xs, ys, rel);
    if xs != [] {
      PairwiseTail(xs, ys, rel);
      RespectsAt(le, rel, x, y, xs[0], ys[0]);
      if !le(x, xs[0]) {
        InsertPairwise(x, y, xs[1..], ys[1..], le, rel);
        PairwiseCons(xs[0], ys[0], Insert(x, xs[1..], le), Insert(y, ys[1..], le), rel);
      }
    }
  }

  /** Sorting keeps elements paired up when the relation does not disturb the order. */
  lemma {:induction false} SortPairwise<T(!new)>(xs: seq<T>, ys: seq<T>, le: (T, T) -> bool, rel: (T, T) -> bool)
    requires Respects(le, rel) && Pairwise(xs, ys, rel)
    ensures Pairwise(Sort(xs, le), Sort(ys, le), rel)
  {
    if xs != [] {
      PairwiseTail(xs, ys, rel);
      SortPairwise(xs[1..], ys[1..], le, rel);
      InsertPairwise(xs[0], ys[0], Sort(xs[1..], le), Sort(ys[1..], le), le, rel);
    }
  }

  // ----- strings by code point -------------------------------------------------------------

  predicate StringLe(a: string, b: string) {
    if a == [] then true
    else if b == [] then false
    else a[0] < b[0] || (a[0] == b[0] && StringLe(a[1..], b[1..]))
  }

  /** Dictionary order: up to where they first differ, the smaller character decides, or the end. */
  predicate FirstDifference(a: string, b: string, i: nat) {
    && i <= |a| && i <= |b| && a[..i] == b[..i]
    && (i == |a| || (i < |b| && a[i] < b[i]))
  }

  lemma {:induction false} StringLeWhen(a: string, b: string)
    ensures StringLe(a, b) <==> exists i: nat :: FirstDifference(a, b, i)
  {
    if a == [] {
      assert FirstDifference(a, b, 0);
    } else if b != [] {
      StringLeWhen(a[1..], b[1..]);
      if StringLe(a, b) {
        if a[0] < b[0] {
          assert FirstDifference(a, b, 0);
        } else {
          var i: nat :| FirstDifference(a[1..], b[1..], i);
          assert a[..i + 1] == [a[0]] + a[1..][..i] && b[..i + 1] == [b[0]] + b[1..][..i];
          assert FirstDifference(a, b, i + 1);
        }
      }
      if i: nat :| FirstDifference(a, b, i) {
        if i > 0 {
          assert a[0] == a[..i][0] == b[..i][0] == b[0];
          assert a[1..][..i - 1] == a[..i][1..] && b[1..][..i - 1] == b[..i][1..];
          assert FirstDifference(a[1..], b[1..], i - 1);
        }
      }
    }
  }

  lemma {:induction false} StringLeTotal(a: string, b: string)
    ensures StringLe(a, b) || StringLe(b, a)
    ensures StringLe(a, b) && StringLe(b, a) ==> a == b
  {
    if a != [] && b != [] {
      StringLeTotal(a[1..], b[1..]);
      assert a == [a[0]] + a[1..] && b == [b[0]] + b[1..];
    }
  }

  lemma {:induction false} StringLeTransitive(a: string, b: string, c: string)
    requires StringLe(a, b) && StringLe(b, c)
    ensures StringLe(a, c)
  {
    if a != [] && b != [] && c != [] && a[0] == b[0] == c[0] {
      StringLeTransitive(a[1..], b[1..], c[1..]);
    }
  }

  lemma StringLePreorder()
    ensures TotalPreorder(StringLe)
  {
    forall a, b ensures StringLe(a, b) || StringLe(b, a) {
      StringLeTotal(a, b);
    }
    forall a, b, c | StringLe(a, b) && StringLe(b, c) ensures StringLe(a, c) {
      StringLeTransitive(a, b, c);
    }
  }

  lemma StringLeAntisymmetric()
    ensures Antisymmetric(StringLe)
  {
    forall a, b | StringLe(a, b) && StringLe(b, a) ensures a == b {
      StringLeTotal(a, b);
    }
  }

  // ----- the elements of a list, each once, in order ---------------------------------------

  function Dedup(xs: seq<string>): (r: seq<string>)
    ensures forall x :: x in r <==> x in xs
    ensures forall i, j :: 0 <= i < j < |r| ==> r[i] != r[j]
  {
    if xs == [] then []
    else
      assert xs == [xs[0]] + xs[1..];
      var rest := Dedup(xs[1..]);
      if xs[0] in xs[1..] then rest else [xs[0]] + rest
  }

  /** `sorted(set(xs))` */
  function SortedSet(xs: seq<string>): seq<string> {
    Sort(Dedup(xs), StringLe)
  }

  ghost predicate Ascending(xs: seq<string>) {
    forall i, j :: 0 <= i < j < |xs| ==> StringLe(xs[i], xs[j]) && xs[i] != xs[j]
  }

  lemma SortedSetAscending(xs: seq<string>)
    ensures Ascending(SortedSet(xs))
    ensures forall x :: x in SortedSet(xs) <==> x in xs
  {
    var d := Dedup(xs);
    var r := Sort(d, StringLe);
    StringLePreorder();
    SortSorted(d, StringLe);
    SortMembers(d, StringLe);
    SortContents(d, StringLe);
    forall i, j | 0 <= i < j < |r| ensures r[i] != r[j] {
      if r[i] == r[j] {
        TwiceInMultiset(r, i, j);
        NoTwice(d, r[i]);
      }
    }
  }

  lemma TwiceInMultiset(r: seq<string>, i: nat, j: nat)
    requires i < j < |r| && r[i] == r[j]
    ensures multiset(r)[r[i]] >= 2
  {
    assert r == r[..i] + [r[i]] + r[i + 1..j] + [r[j]] + r[j + 1..];
  }

  lemma {:induction false} NoTwice(d: seq<string>, x: string)
    requires forall i, j :: 0 <= i < j < |d| ==> d[i] != d[j]
    ensures multiset(d)[x] <= 1
  {
    if d != [] {
      NoTwice(d[1..], x);
      assert d == [d[0]] + d[1..];
      if d[0] == x {
        assert x !in d[1..];
      }
    }
  }
}
