// Values and sequence facts shared by every part of the model: sets of values,
// freedom from repetition, permutations, places in a sequence, sums, sorted
// lists and ranges, going round a table, and matching items with free places.
module Prelude {
  datatype Option<+T> = None | Some(value: T)

  // The values occurring in a sequence, as Python's set(xs).
  function Elems<T(==)>(s: seq<T>): set<T> {
    set x | x in s
  }

  // No value occurs twice, as len(set(xs)) == len(xs).
  predicate NoDup<T(==)>(s: seq<T>) {
    forall i, j :: 0 <= i < j < |s| ==> s[i] != s[j]
  }

  lemma {:induction false} NoDupSize<T>(s: seq<T>)
    ensures |Elems(s)| <= |s|
    ensures |Elems(s)| == |s| <==> NoDup(s)
  {
    if s == [] {
    } else {
      var init, last := s[..|s| - 1], s[|s| - 1];
      NoDupSize(init);
      assert Elems(s) == Elems(init) + {last};
      if NoDup(init) && last !in init {
        assert NoDup(s);
      }
      if NoDup(s) {
        assert NoDup(init);
        assert last !in init;
      }
    }
  }

  // A subset that is as large as the whole is the whole.
  lemma SubsetFull<T>(a: set<T>, b: set<T>)
    requires a <= b
    ensures |a| <= |b|
    ensures |a| == |b| ==> a == b
  {
    assert b == a + (b - a);
  }

  lemma DisjointMeaning<T>(a: set<T>, b: set<T>)
    ensures a !! b <==> a * b == {}
  {
    if a * b == {} {
      forall x | x in a ensures x !in b { assert x !in a * b; }
    }
  }

  lemma ElemsConcat<T>(a: seq<T>, b: seq<T>)
    ensures Elems(a + b) == Elems(a) + Elems(b)
  {
  }

  lemma NoDupConcat<T>(a: seq<T>, b: seq<T>)
    ensures NoDup(a + b) <==> NoDup(a) && NoDup(b) && Elems(a) !! Elems(b)
  {
    var c := a + b;
    if NoDup(c) {
      forall i, j | 0 <= i < j < |a| ensures a[i] != a[j] { assert c[i] != c[j]; }
      forall i, j | 0 <= i < j < |b| ensures b[i] != b[j] { assert c[|a| + i] != c[|a| + j]; }
      forall x | x in Elems(a) ensures x !in Elems(b) {
        var i :| 0 <= i < |a| && a[i] == x;
        forall j | 0 <= j < |b| ensures b[j] != x { assert c[i] != c[|a| + j]; }
      }
    }
    if NoDup(a) && NoDup(b) && Elems(a) !! Elems(b) {
      forall i, j | 0 <= i < j < |c| ensures c[i] != c[j] {
        if i < |a| && |a| <= j { assert c[i] in Elems(a) && c[j] in Elems(b); }
      }
    }
  }

  // Sequences over the same values, one without repetition and of the same
  // length, are permutations of each other.
  lemma SameValuesPermute<T>(s: seq<T>, t: seq<T>)
    requires |s| == |t| && Elems(s) == Elems(t) && NoDup(t)
    ensures NoDup(s) && multiset(s) == multiset(t)
  {
    NoDupSize(t);
    NoDupSize(s);
    NoDupCounts(s);
    NoDupCounts(t);
    forall x ensures multiset(s)[x] == multiset(t)[x] {
      assert x in multiset(s) <==> x in Elems(s);
      assert x in multiset(t) <==> x in Elems(t);
    }
  }

  lemma {:induction false} NoDupCounts<T>(s: seq<T>)
    ensures NoDup(s) <==> forall x :: multiset(s)[x] <= 1
  {
    if s == [] {
    } else {
      var init, last := s[..|s| - 1], s[|s| - 1];
      assert s == init + [last];
      NoDupCounts(init);
      if NoDup(s) {
        assert NoDup(init) && last !in init;
      } else {
        var i, j :| 0 <= i < j < |s| && s[i] == s[j];
        if NoDup(init) {
          assert j == |s| - 1;
          assert init[i] == last;
          assert multiset(s)[last] >= 2;
        } else {
          var x :| multiset(init)[x] > 1;
          assert multiset(s)[x] > 1;
        }
      }
    }
  }

  // A permutation keeps length, values and freedom from repetition.
  lemma PermutationKeeps<T>(s: seq<T>, t: seq<T>)
    requires multiset(s) == multiset(t)
    ensures |s| == |t| && Elems(s) == Elems(t)
    ensures NoDup(s) <==> NoDup(t)
  {
    assert |s| == |multiset(s)| == |multiset(t)| == |t|;
    forall x ensures x in s <==> x in t {
      assert x in s <==> x in multiset(s);
      assert x in t <==> x in multiset(t);
    }
    NoDupCounts(s);
    NoDupCounts(t);
  }

  // Where a value first occurs.
  function IndexOf<T(==)>(s: seq<T>, x: T): (i: nat)
    requires x in s
    ensures i < |s| && s[i] == x && x !in s[..i]
  {
    if s[0] == x then 0 else
      assert s == [s[0]] + s[1..];
      var i := 1 + IndexOf(s[1..], x);
      assert s[..i] == [s[0]] + s[1..][..i - 1];
      i
  }

  lemma IndexIs<T>(s: seq<T>, i: nat)
    requires i < |s| && NoDup(s)
    ensures s[i] in s && IndexOf(s, s[i]) == i
  {
  }

  // x % n, taking n away until less is left. Unlike the remainder itself it keeps
  // the solver out of nonlinear arithmetic.
  function Around(x: nat, n: nat): (r: nat)
    requires n > 0
    ensures r < n
    ensures x < n ==> r == x
    ensures n <= x < n + n ==> r == x - n
  {
    if x < n then x else Around(x - n, n)
  }

  lemma {:induction false} AroundIs(x: nat, n: nat)
    requires n > 0
    ensures Around(x, n) == x % n
  {
    if x >= n {
      AroundIs(x - n, n);
      assert (x - n) / n * n + n == ((x - n) / n + 1) * n;
      OneRemainder(n, x / n, x % n, (x - n) / n + 1, (x - n) % n);
    }
  }

  lemma OneRemainder(n: nat, q: int, r: int, p: int, s: int)
    requires 0 <= r < n && 0 <= s < n && q * n + r == p * n + s
    ensures r == s
  {
    if q > p {
      Bigger(n, q, p);
    } else if q < p {
      Bigger(n, p, q);
    }
  }

  lemma Bigger(n: nat, q: int, p: int)
    requires q > p
    ensures q * n >= p * n + n
  {
    assert q * n == p * n + n + (q - p - 1) * n;
  }

  // How many steps on round a table of n a seat lies, the whole way for the same.
  function Ahead(from: nat, seat: nat, n: nat): (k: nat)
    requires from < n && seat < n
    ensures 1 <= k <= n
  {
    if seat > from then seat - from else seat + n - from
  }

  function Sum(s: seq<int>): int {
    if s == [] then 0 else Sum(s[..|s| - 1]) + s[|s| - 1]
  }

  lemma {:induction false} SumNatural(s: seq<int>)
    requires forall i :: 0 <= i < |s| ==> s[i] >= 0
    ensures Sum(s) >= 0
  {
    if s != [] { SumNatural(s[..|s| - 1]); }
  }

  lemma {:induction false} SumUpdate(s: seq<int>, i: nat, x: int)
    requires i < |s|
    ensures Sum(s[i := x]) == Sum(s) - s[i] + x
  {
    var t := s[i := x];
    if i == |s| - 1 {
      assert t[..|t| - 1] == s[..|s| - 1];
    } else {
      assert t[..|t| - 1] == s[..|s| - 1][i := x];
      SumUpdate(s[..|s| - 1], i, x);
    }
  }

  lemma {:induction false} SumConcat(a: seq<int>, b: seq<int>)
    ensures Sum(a + b) == Sum(a) + Sum(b)
  {
    if b == [] {
      assert a + b == a;
    } else {
      assert (a + b)[..|a + b| - 1] == a + b[..|b| - 1];
      SumConcat(a, b[..|b| - 1]);
    }
  }

  // ---- integers in order

  predicate Ascending(s: seq<int>) {
    forall i, j :: 0 <= i < j < |s| ==> s[i] <= s[j]
  }

  function Insert(x: int, s: seq<int>): (r: seq<int>)
    requires Ascending(s)
    ensures Ascending(r) && multiset(r) == multiset(s) + multiset{x}
  {
    if s == [] then [x]
    else if x <= s[0] then [x] + s
    else
      var rest := Insert(x, s[1..]);
      InsertKeeps(x, s, rest);
      [s[0]] + rest
  }

  lemma InsertKeeps(x: int, s: seq<int>, rest: seq<int>)
    requires s != [] && Ascending(s) && s[0] < x
    requires Ascending(rest) && multiset(rest) == multiset(s[1..]) + multiset{x}
    ensures Ascending([s[0]] + rest)
    ensures multiset([s[0]] + rest) == multiset(s) + multiset{x}
  {
    assert s == [s[0]] + s[1..];
    forall i | 0 <= i < |rest| ensures s[0] <= rest[i] {
      assert rest[i] in multiset(rest);
      if rest[i] != x { assert rest[i] in s[1..]; }
    }
  }

  // Python's sorted() on integers.
  function Sorted(s: seq<int>): (r: seq<int>)
    ensures Ascending(r) && multiset(r) == multiset(s)
  {
    if s == [] then []
    else
      assert s == s[..|s| - 1] + [s[|s| - 1]];
      Insert(s[|s| - 1], Sorted(s[..|s| - 1]))
  }

  // range(lo, lo + n)
  function Range(lo: int, n: nat): seq<int> {
    seq(n, i => lo + i)
  }

  // The n consecutive integers from lo.
  function Window(lo: int, n: nat): (w: set<int>)
    ensures |w| == n
    ensures forall x :: x in w <==> lo <= x < lo + n
  {
    RangeValues(lo, n);
    Elems(Range(lo, n))
  }

  lemma RangeValues(lo: int, n: nat)
    ensures NoDup(Range(lo, n)) && |Elems(Range(lo, n))| == n
    ensures forall x :: x in Elems(Range(lo, n)) <==> lo <= x < lo + n
  {
    var r := Range(lo, n);
    NoDupSize(r);
    forall x | lo <= x < lo + n ensures x in r { assert r[x - lo] == x; }
  }

  // A sorted list is a range exactly when its values fill a window of its length.
  lemma SortedIsRange(s: seq<int>)
    requires s != []
    ensures |Sorted(s)| == |s|
    ensures Sorted(s) == Range(Sorted(s)[0], |s|) <==> exists lo :: Elems(s) == Window(lo, |s|)
  {
    var r := Sorted(s);
    PermutationKeeps(r, s);
    RangeIffWindow(s, r);
  }

  lemma RangeIffWindow(s: seq<int>, r: seq<int>)
    requires s != [] && |r| == |s| && Elems(r) == Elems(s) && Ascending(r)
    ensures r == Range(r[0], |s|) <==> exists lo :: Elems(s) == Window(lo, |s|)
  {
    if r == Range(r[0], |s|) {
      RangeValues(r[0], |s|);
      assert Elems(s) == Window(r[0], |s|);
    }
    if lo :| Elems(s) == Window(lo, |s|) {
      NoDupSize(r);
      StrictlyFills(r, lo);
      assert r == Range(r[0], |s|);
    }
  }

  lemma StrictlyFills(r: seq<int>, lo: int)
    requires Ascending(r) && NoDup(r)
    requires Elems(r) == Window(lo, |r|)
    ensures forall i :: 0 <= i < |r| ==> r[i] == lo + i
  {
    Spread(r);
    forall i | 0 <= i < |r| ensures r[i] == lo + i {
      assert r[0] in Elems(r);
      assert r[|r| - 1] in Elems(r);
    }
  }

  // Distinct ascending integers are at least as far apart as their indices.
  lemma Spread(r: seq<int>)
    requires Ascending(r) && NoDup(r)
    ensures forall i, j :: 0 <= i <= j < |r| ==> r[j] - r[i] >= j - i
  {
    forall i, j | 0 <= i <= j < |r| ensures r[j] - r[i] >= j - i {
      var k := i;
      while k < j
        invariant i <= k <= j && r[k] - r[i] >= k - i
      {
        assert r[k] <= r[k + 1] && r[k] != r[k + 1];
        k := k + 1;
      }
    }
  }

  // ---- injective completion

  // With at least as many places as items, every item gets a place of its own.
  lemma {:induction false} Fill<A, B>(items: set<A>, places: set<B>) returns (g: map<A, B>)
    requires |items| <= |places|
    ensures g.Keys == items
    ensures forall a :: a in g ==> g[a] in places
    ensures forall a, b :: a in g && b in g && a != b ==> g[a] != g[b]
    decreases |items|
  {
    if items == {} {
      g := map[];
    } else {
      var a :| a in items;
      var p :| p in places;
      assert |items - {a}| == |items| - 1;
      assert |places - {p}| == |places| - 1;
      var h := Fill(items - {a}, places - {p});
      g := h[a := p];
    }
  }

  // Distinct images are as many as their sources.
  lemma {:induction false} ImageSize<A, B>(g: map<A, B>)
    requires forall a, b :: a in g && b in g && a != b ==> g[a] != g[b]
    ensures |g.Values| == |g.Keys|
    decreases |g.Keys|
  {
    if g.Keys == {} {
      assert g.Values == {};
    } else {
      var a :| a in g;
      var h := g - {a};
      assert h.Keys == g.Keys - {a};
      ImageSize(h);
      forall y | y in g.Values ensures y in h.Values + {g[a]} {
        var b :| b in g && g[b] == y;
        if b != a { assert b in h && h[b] == y; }
      }
      assert forall b :: b in h ==> h[b] == g[b];
      assert g[a] !in h.Values;
      assert g.Values == h.Values + {g[a]};
    }
  }
}
