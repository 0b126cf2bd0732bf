/** Stable insertion sort over an arbitrary comparison, standing for Array.prototype.sort
    (stable since ECMAScript 2019) and for ORDER BY, and the option type shared by every module. */
module Ordering {

  datatype Option<+T> = None | Some(value: T)

  ghost predicate Preorder<T(!new)>(leq: (T, T) -> bool) {
    && (forall x, y :: leq(x, y) || leq(y, x))
    && (forall x, y, z :: leq(x, y) && leq(y, z) ==> leq(x, z))
  }

  ghost predicate TotalOrder<T(!new)>(leq: (T, T) -> bool) {
    && Preorder(leq)
    && (forall x, y :: leq(x, y) && leq(y, x) ==> x == y)
  }

  ghost predicate AntisymmetricOn<T>(xs: seq<T>, leq: (T, T) -> bool) {
    forall i, j :: 0 <= i < |xs| && 0 <= j < |xs| && leq(xs[i], xs[j]) && leq(xs[j], xs[i]) ==> xs[i] == xs[j]
  }

  ghost predicate Sorted<T>(xs: seq<T>, leq: (T, T) -> bool) {
    forall i, j :: 0 <= i < j < |xs| ==> leq(xs[i], xs[j])
  }

  ghost predicate Distinct<T>(xs: seq<T>) {
    forall i, j :: 0 <= i < j < |xs| ==> xs[i] != xs[j]
  }

  lemma Assoc<T>(a: seq<T>, b: seq<T>, c: seq<T>)
    ensures (a + b) + c == a + (b + c)
  {
  }

  lemma Cons<T>(x: T, xs: seq<T>)
    ensures ([x] + xs)[0] == x && ([x] + xs)[1..] == xs
  {
  }

  function Insert<T>(x: T, xs: seq<T>, leq: (T, T) -> bool): seq<T> {
    if xs == [] || leq(x, xs[0]) then [x] + xs else [xs[0]] + Insert(x, xs[1..], leq)
  }

  function Sort<T>(xs: seq<T>, leq: (T, T) -> bool): seq<T> {
    if xs == [] then [] else Insert(xs[0], Sort(xs[1..], leq), leq)
  }

  lemma {:induction false} InsertMultiset<T>(x: T, xs: seq<T>, leq: (T, T) -> bool)
    ensures multiset(Insert(x, xs, leq)) == multiset{x} + multiset(xs)
  {
    if xs != [] && !leq(x, xs[0]) {
      InsertMultiset(x, xs[1..], leq);
      assert xs == [xs[0]] + xs[1..];
    }
  }

  /** Sorting permutes. */
  lemma {:induction false} SortMultiset<T>(xs: seq<T>, leq: (T, T) -> bool)
    ensures multiset(Sort(xs, leq)) == multiset(xs)
    ensures |Sort(xs, leq)| == |xs|
    ensures forall x :: x in Sort(xs, leq) <==> x in xs
  {
    if xs != [] {
      SortMultiset(xs[1..], leq);
      InsertMultiset(xs[0], Sort(xs[1..], leq), leq);
      assert xs == [xs[0]] + xs[1..];
    }
    assert |multiset(Sort(xs, leq))| == |multiset(xs)|;
    forall x ensures x in Sort(xs, leq) <==> x in xs {
      assert x in Sort(xs, leq) <==> x in multiset(Sort(xs, leq));
      assert x in xs <==> x in multiset(xs);
    }
  }

  lemma {:induction false} InsertSorted<T(!new)>(x: T, xs: seq<T>, leq: (T, T) -> bool)
    requires Preorder(leq) && Sorted(xs, leq)
    ensures Sorted(Insert(x, xs, leq), leq)
  {
    if xs != [] && !leq(x, xs[0]) {
      InsertSorted(x, xs[1..], leq);
      InsertMultiset(x, xs[1..], leq);
      var rest := Insert(x, xs[1..], leq);
      forall y | y in rest ensures leq(xs[0], y) {
        assert y in multiset(rest);
        assert y == x || y in xs[1..];
      }
    }
  }

  /** Sorting sorts. */
  lemma {:induction false} SortSorted<T(!new)>(xs: seq<T>, leq: (T, T) -> bool)
    requires Preorder(leq)
    ensures Sorted(Sort(xs, leq), leq)
  {
    if xs != [] {
      SortSorted(xs[1..], leq);
      InsertSorted(xs[0], Sort(xs[1..], leq), leq);
    }
  }

  /** A sorted sequence is left alone. */
  lemma {:induction false} SortOfSorted<T>(xs: seq<T>, leq: (T, T) -> bool)
    requires Sorted(xs, leq)
    ensures Sort(xs, leq) == xs
  {
    if xs != [] { SortOfSorted(xs[1..], leq); }
  }

  lemma SortedHeads<T(!new)>(xs: seq<T>, ys: seq<T>, leq: (T, T) -> bool)
    requires Preorder(leq) && Sorted(xs, leq) && Sorted(ys, leq) && AntisymmetricOn(xs, leq)
    requires multiset(xs) == multiset(ys) && xs != [] && ys != []
    ensures xs[0] == ys[0]
  {
    assert xs[0] in multiset(ys) && ys[0] in multiset(xs);
    var k :| 0 <= k < |xs| && xs[k] == ys[0];
    var j :| 0 <= j < |ys| && ys[j] == xs[0];
    assert leq(xs[0], xs[k]) && leq(ys[0], ys[j]);
    assert leq(xs[k], xs[0]);
  }

  lemma Tails<T>(xs: seq<T>, leq: (T, T) -> bool)
    requires xs != [] && Sorted(xs, leq) && AntisymmetricOn(xs, leq)
    ensures Sorted(xs[1..], leq) && AntisymmetricOn(xs[1..], leq)
  {
  }

  lemma TailMultiset<T>(xs: seq<T>)
    requires xs != []
    ensures multiset(xs[1..]) == multiset(xs) - multiset{xs[0]}
    ensures xs == [xs[0]] + xs[1..]
  {
    assert xs == [xs[0]] + xs[1..];
  }

  lemma {:induction false} SortedUnique<T(!new)>(xs: seq<T>, ys: seq<T>, leq: (T, T) -> bool)
    requires Preorder(leq) && Sorted(xs, leq) && Sorted(ys, leq)
    requires AntisymmetricOn(xs, leq) && AntisymmetricOn(ys, leq)
    requires multiset(xs) == multiset(ys)
    ensures xs == ys
  {
    assert |multiset(xs)| == |xs| && |multiset(ys)| == |ys|;
    if xs != [] {
      SortedHeads(xs, ys, leq);
      TailMultiset(xs);
      TailMultiset(ys);
      Tails(xs, leq);
      Tails(ys, leq);
      SortedUnique(xs[1..], ys[1..], leq);
    }
  }

  lemma AntisymmetricMember<T>(xs: seq<T>, x: T, y: T, leq: (T, T) -> bool)
    requires AntisymmetricOn(xs, leq) && x in multiset(xs) && y in multiset(xs) && leq(x, y) && leq(y, x)
    ensures x == y
  {
    var a :| 0 <= a < |xs| && xs[a] == x;
    var b :| 0 <= b < |xs| && xs[b] == y;
  }

  lemma SortAntisymmetric<T>(xs: seq<T>, leq: (T, T) -> bool)
    requires AntisymmetricOn(xs, leq)
    ensures AntisymmetricOn(Sort(xs, leq), leq)
  {
    SortMultiset(xs, leq);
    var s := Sort(xs, leq);
    forall i, j | 0 <= i < |s| && 0 <= j < |s| && leq(s[i], s[j]) && leq(s[j], s[i]) ensures s[i] == s[j] {
      assert s[i] in multiset(s) && s[j] in multiset(s);
      AntisymmetricMember(xs, s[i], s[j], leq);
    }
  }

  /** When no two different elements compare as equal, the result depends on the multiset alone. */
  lemma SortCanonical<T(!new)>(xs: seq<T>, ys: seq<T>, leq: (T, T) -> bool)
    requires Preorder(leq) && AntisymmetricOn(xs, leq)
    ensures multiset(xs) == multiset(ys) <==> Sort(xs, leq) == Sort(ys, leq)
  {
    SortMultiset(xs, leq);
    SortMultiset(ys, leq);
    if multiset(xs) == multiset(ys) {
      forall i, j | 0 <= i < |ys| && 0 <= j < |ys| && leq(ys[i], ys[j]) && leq(ys[j], ys[i]) ensures ys[i] == ys[j] {
        assert ys[i] in multiset(ys) && ys[j] in multiset(ys);
        AntisymmetricMember(xs, ys[i], ys[j], leq);
      }
      SortAntisymmetric(xs, leq);
      SortAntisymmetric(ys, leq);
      SortSorted(xs, leq);
      SortSorted(ys, leq);
      SortedUnique(Sort(xs, leq), Sort(ys, leq), leq);
    }
  }

  /** Two duplicate-free sequences of one length, the first inside the second, are permutations of each other. */
  lemma {:induction false} DistinctPermutation<T>(xs: seq<T>, ys: seq<T>)
    requires Distinct(xs) && |ys| <= |xs|
    requires forall i :: 0 <= i < |xs| ==> xs[i] in ys
    ensures multiset(xs) == multiset(ys)
  {
    if xs == [] {
      assert ys == [];
    } else {
      var k :| 0 <= k < |ys| && ys[k] == xs[0];
      var rest := ys[..k] + ys[k + 1..];
      assert ys == ys[..k] + [xs[0]] + ys[k + 1..];
      assert xs == [xs[0]] + xs[1..];
      forall i | 0 <= i < |xs[1..]| ensures xs[1..][i] in rest {
        var j :| 0 <= j < |ys| && ys[j] == xs[i + 1];
        assert if j < k then rest[j] == ys[j] else rest[j - 1] == ys[j];
      }
      DistinctPermutation(xs[1..], rest);
    }
  }

  lemma {:induction false} DistinctCount<T>(xs: seq<T>, x: T)
    requires Distinct(xs)
    ensures multiset(xs)[x] == if x in xs then 1 else 0
  {
    if xs != [] {
      DistinctCount(xs[1..], x);
      assert xs == [xs[0]] + xs[1..];
    }
  }

  lemma RepeatCount<T>(xs: seq<T>, i: nat, j: nat)
    requires i < j < |xs| && xs[i] == xs[j]
    ensures multiset(xs)[xs[i]] >= 2
  {
    assert xs == xs[..i] + [xs[i]] + xs[i + 1..j] + [xs[j]] + xs[j + 1..];
  }

  ghost predicate DistinctBy<T, K>(xs: seq<T>, key: T -> K) {
    forall i, j :: 0 <= i < j < |xs| ==> key(xs[i]) != key(xs[j])
  }

  /** A permutation of a sequence with distinct keys has distinct keys. */
  lemma KeysStayDistinct<T, K>(xs: seq<T>, ys: seq<T>, key: T -> K)
    requires multiset(ys) == multiset(xs) && DistinctBy(xs, key)
    ensures DistinctBy(ys, key)
  {
    if i, j :| 0 <= i < j < |ys| && key(ys[i]) == key(ys[j]) {
      assert ys[i] in multiset(xs) && ys[j] in multiset(xs);
      var a :| 0 <= a < |xs| && xs[a] == ys[i];
      var b :| 0 <= b < |xs| && xs[b] == ys[j];
      assert a == b;
      RepeatCount(ys, i, j);
      DistinctCount(xs, ys[i]);
      assert false;
    }
  }

  lemma {:induction false} FilterDistinct<T(!new), K>(xs: seq<T>, p: T -> bool, key: T -> K)
    requires DistinctBy(xs, key)
    ensures DistinctBy(Filter(xs, p), key)
  {
    if xs != [] {
      FilterDistinct(xs[1..], p, key);
      var rest := Filter(xs[1..], p);
      forall i | 0 <= i < |rest| ensures key(xs[0]) != key(rest[i]) {
        assert rest[i] in rest;
        var j :| 0 <= j < |xs[1..]| && xs[1..][j] == rest[i];
        assert xs[j + 1] == rest[i];
      }
      assert Filter(xs, p) == if p(xs[0]) then [xs[0]] + rest else rest;
    }
  }

  lemma {:induction false} FilterSorted<T(!new)>(xs: seq<T>, p: T -> bool, leq: (T, T) -> bool)
    requires Sorted(xs, leq)
    ensures Sorted(Filter(xs, p), leq)
  {
    if xs != [] {
      FilterSorted(xs[1..], p, leq);
      var rest := Filter(xs[1..], p);
      forall i | 0 <= i < |rest| ensures leq(xs[0], rest[i]) {
        assert rest[i] in rest;
        var j :| 0 <= j < |xs[1..]| && xs[1..][j] == rest[i];
        assert xs[j + 1] == rest[i];
      }
      assert Filter(xs, p) == if p(xs[0]) then [xs[0]] + rest else rest;
    }
  }

  /** The subsequence of the elements satisfying p, in order. */
  function Filter<T(!new)>(xs: seq<T>, p: T -> bool): (r: seq<T>)
    ensures forall x :: x in r <==> x in xs && p(x)
    ensures |r| <= |xs|
  {
    if xs == [] then [] else (if p(xs[0]) then [xs[0]] else []) + Filter(xs[1..], p)
  }

  function Map<A, B>(xs: seq<A>, f: A -> B): (r: seq<B>)
    ensures |r| == |xs|
    ensures forall i :: 0 <= i < |xs| ==> r[i] == f(xs[i])
  {
    seq(|xs|, i requires 0 <= i < |xs| => f(xs[i]))
  }

  lemma {:induction false} FilterAppend<T(!new)>(xs: seq<T>, ys: seq<T>, p: T -> bool)
    ensures Filter(xs + ys, p) == Filter(xs, p) + Filter(ys, p)
  {
    if xs == [] {
      assert xs + ys == ys;
    } else {
      assert (xs + ys)[1..] == xs[1..] + ys;
      FilterAppend(xs[1..], ys, p);
    }
  }

  lemma FilterOneMore<T(!new)>(xs: seq<T>, x: T, p: T -> bool)
    ensures Filter(xs + [x], p) == if p(x) then Filter(xs, p) + [x] else Filter(xs, p)
  {
    FilterAppend(xs, [x], p);
    assert Filter([x], p) == (if p(x) then [x] else []) + Filter([x][1..], p);
  }

  lemma {:induction false} FilterCount<T(!new)>(xs: seq<T>, p: T -> bool, x: T)
    ensures multiset(Filter(xs, p))[x] == if p(x) then multiset(xs)[x] else 0
  {
    if xs != [] {
      FilterCount(xs[1..], p, x);
      TailMultiset(xs);
      assert multiset([xs[0]] + Filter(xs[1..], p)) == multiset{xs[0]} + multiset(Filter(xs[1..], p));
    }
  }

  lemma {:induction false} FilterTwice<T(!new)>(xs: seq<T>, p: T -> bool, q: T -> bool, both: T -> bool)
    requires forall x :: both(x) <==> p(x) && q(x)
    ensures Filter(Filter(xs, p), q) == Filter(xs, both)
  {
    if xs != [] {
      var x, rest := xs[0], Filter(xs[1..], p);
      FilterTwice(xs[1..], p, q, both);
      Cons(x, rest);
      assert Filter([x] + rest, q) == (if q(x) then [x] else []) + Filter(rest, q);
      assert Filter(xs, p) == if p(x) then [x] + rest else rest;
    }
  }

  /** What a filter keeps, as a multiset, depends on the multiset alone. */
  lemma FilterMultiset<T(!new)>(xs: seq<T>, ys: seq<T>, p: T -> bool)
    requires multiset(xs) == multiset(ys)
    ensures multiset(Filter(xs, p)) == multiset(Filter(ys, p))
  {
    forall x ensures multiset(Filter(xs, p))[x] == multiset(Filter(ys, p))[x] {
      FilterCount(xs, p, x);
      FilterCount(ys, p, x);
    }
  }

  lemma {:induction false} FilterAll<T(!new)>(xs: seq<T>, p: T -> bool)
    requires forall i :: 0 <= i < |xs| ==> p(xs[i])
    ensures Filter(xs, p) == xs
  {
    if xs != [] { FilterAll(xs[1..], p); }
  }

  lemma {:induction false} FilterNone<T(!new)>(xs: seq<T>, p: T -> bool)
    requires forall i :: 0 <= i < |xs| ==> !p(xs[i])
    ensures Filter(xs, p) == []
  {
    if xs != [] { FilterNone(xs[1..], p); }
  }

  lemma FilterParts<T(!new)>(a: seq<T>, b: seq<T>, p: T -> bool)
    requires forall i :: 0 <= i < |a| ==> !p(a[i])
    requires forall i :: 0 <= i < |b| ==> p(b[i])
    ensures Filter(a + b, p) == b
  {
    FilterNone(a, p);
    FilterAll(b, p);
    FilterAppend(a, b, p);
  }

  /** A filter that rejects a prefix and accepts the rest keeps the rest. */
  lemma FilterSuffix<T(!new)>(xs: seq<T>, k: nat, p: T -> bool)
    requires k <= |xs|
    requires forall i :: 0 <= i < k ==> !p(xs[i])
    requires forall i :: k <= i < |xs| ==> p(xs[i])
    ensures Filter(xs, p) == xs[k..]
  {
    var a, b := xs[..k], xs[k..];
    assert xs == a + b;
    FilterParts(a, b, p);
  }

  lemma FilterCons<T(!new)>(x: T, xs: seq<T>, p: T -> bool)
    ensures Filter([x] + xs, p) == (if p(x) then [x] else []) + Filter(xs, p)
  {
    Cons(x, xs);
  }

  lemma {:induction false} InsertStable<T(!new)>(x: T, xs: seq<T>, tied: T -> bool, leq: (T, T) -> bool)
    requires forall a, b :: tied(a) && tied(b) ==> leq(a, b)
    ensures Filter(Insert(x, xs, leq), tied) == (if tied(x) then [x] else []) + Filter(xs, tied)
  {
    if xs == [] || leq(x, xs[0]) {
      FilterCons(x, xs, tied);
    } else {
      InsertStable(x, xs[1..], tied, leq);
      FilterCons(xs[0], Insert(x, xs[1..], leq), tied);
      assert tied(x) ==> !tied(xs[0]);
      Assoc(if tied(xs[0]) then [xs[0]] else [], if tied(x) then [x] else [], Filter(xs[1..], tied));
    }
  }

  /** Sorting is stable: elements that compare as equal keep their order. */
  lemma {:induction false} SortStable<T(!new)>(xs: seq<T>, tied: T -> bool, leq: (T, T) -> bool)
    requires forall a, b :: tied(a) && tied(b) ==> leq(a, b)
    ensures Filter(Sort(xs, leq), tied) == Filter(xs, tied)
  {
    if xs != [] {
      SortStable(xs[1..], tied, leq);
      InsertStable(xs[0], Sort(xs[1..], leq), tied, leq);
    }
  }

  lemma FilterAround<T(!new)>(a: seq<T>, x: T, rest: seq<T>, p: T -> bool)
    requires p(x)
    ensures Filter(a + [x] + rest, p) == Filter(a, p) + [x] + Filter(rest, p)
  {
    FilterAppend(a + [x], rest, p);
    FilterAppend(a, [x], p);
    assert Filter([x], p) == [x];
  }

  lemma FilterTells<T(!new)>(a: seq<T>, x: T, y: T, rest: seq<T>, rest': seq<T>, p: T -> bool)
    requires p(x) && p(y) && x != y
    ensures Filter(a + [x] + rest, p) != Filter(a + [y] + rest', p)
  {
    FilterAround(a, x, rest, p);
    FilterAround(a, y, rest', p);
    var n := |Filter(a, p)|;
    assert (Filter(a, p) + [x] + Filter(rest, p))[n] == x;
    assert (Filter(a, p) + [y] + Filter(rest', p))[n] == y;
  }

  lemma SwapMultiset<T>(a: seq<T>, x: T, b: seq<T>, y: T, c: seq<T>)
    ensures multiset(a + [x] + (b + [y] + c)) == multiset(a + [y] + (b + [x] + c))
  {
  }

  /** Swapping two different elements that compare as equal changes the sorted sequence. */
  lemma SwapShows<T(!new)>(xs: seq<T>, i: nat, j: nat, leq: (T, T) -> bool) returns (ys: seq<T>)
    requires Preorder(leq) && i < j < |xs| && xs[i] != xs[j] && leq(xs[i], xs[j]) && leq(xs[j], xs[i])
    ensures multiset(ys) == multiset(xs) && Sort(ys, leq) != Sort(xs, leq)
  {
    var x, y, a, b, c := xs[i], xs[j], xs[..i], xs[i + 1..j], xs[j + 1..];
    var tied := (z: T) => leq(x, z) && leq(z, x);
    assert xs == a + [x] + (b + [y] + c);
    ys := a + [y] + (b + [x] + c);
    SwapMultiset(a, x, b, y, c);
    FilterTells(a, x, y, b + [y] + c, b + [x] + c, tied);
    SortStable(xs, tied, leq);
    SortStable(ys, tied, leq);
  }

  /** When two different elements compare as equal, some order of the same elements sorts differently. */
  lemma TiesShow<T(!new)>(xs: seq<T>, leq: (T, T) -> bool) returns (ys: seq<T>)
    requires Preorder(leq) && !AntisymmetricOn(xs, leq)
    ensures multiset(ys) == multiset(xs) && Sort(ys, leq) != Sort(xs, leq)
  {
    var i, j :| 0 <= i < |xs| && 0 <= j < |xs| && leq(xs[i], xs[j]) && leq(xs[j], xs[i]) && xs[i] != xs[j];
    if i < j { ys := SwapShows(xs, i, j, leq); } else { ys := SwapShows(xs, j, i, leq); }
  }

  /** Filtering then sorting is filtering what was sorted already. */
  lemma SortFiltered<T(!new)>(xs: seq<T>, sorted: seq<T>, p: T -> bool, rest: seq<T>, leq: (T, T) -> bool)
    requires multiset(xs) == multiset(sorted) && Filter(sorted, p) == rest
    requires Preorder(leq) && Sorted(rest, leq) && AntisymmetricOn(rest, leq)
    ensures Sort(Filter(xs, p), leq) == rest
  {
    FilterMultiset(xs, sorted, p);
    SortCanonical(rest, Filter(xs, p), leq);
    SortOfSorted(rest, leq);
  }

  lemma {:induction false} InsertSame<T(!new)>(x: T, xs: seq<T>, leq: (T, T) -> bool, leq': (T, T) -> bool)
    requires forall i :: 0 <= i < |xs| ==> leq(x, xs[i]) == leq'(x, xs[i])
    ensures Insert(x, xs, leq) == Insert(x, xs, leq')
  {
    if xs != [] && !leq(x, xs[0]) { InsertSame(x, xs[1..], leq, leq'); }
  }

  /** Comparisons that agree on the elements sort alike. */
  lemma {:induction false} SortSame<T(!new)>(xs: seq<T>, leq: (T, T) -> bool, leq': (T, T) -> bool)
    requires forall i, j :: 0 <= i < |xs| && 0 <= j < |xs| ==> leq(xs[i], xs[j]) == leq'(xs[i], xs[j])
    ensures Sort(xs, leq) == Sort(xs, leq')
  {
    if xs != [] {
      SortSame(xs[1..], leq, leq');
      var rest := Sort(xs[1..], leq);
      SortMultiset(xs[1..], leq);
      forall i | 0 <= i < |rest| ensures leq(xs[0], rest[i]) == leq'(xs[0], rest[i]) {
        assert rest[i] in rest;
        var j :| 0 <= j < |xs[1..]| && xs[1..][j] == rest[i];
        assert xs[j + 1] == rest[i];
      }
      InsertSame(xs[0], rest, leq, leq');
    }
  }

  /** Conditions that agree on the elements keep the same ones. */
  lemma {:induction false} FilterSame<T(!new)>(xs: seq<T>, p: T -> bool, q: T -> bool)
    requires forall i :: 0 <= i < |xs| ==> p(xs[i]) == q(xs[i])
    ensures Filter(xs, p) == Filter(xs, q)
  {
    if xs != [] { FilterSame(xs[1..], p, q); }
  }

  lemma {:induction false} InsertMap<A(!new), B>(x: A, xs: seq<A>, f: A -> B, leqA: (A, A) -> bool,
                                                 leqB: (B, B) -> bool)
    requires forall a, b :: leqA(a, b) == leqB(f(a), f(b))
    ensures Insert(f(x), Map(xs, f), leqB) == Map(Insert(x, xs, leqA), f)
  {
    if xs != [] && !leqA(x, xs[0]) {
      InsertMap(x, xs[1..], f, leqA, leqB);
      assert Map(xs, f)[1..] == Map(xs[1..], f);
    }
  }

  /** Sorting commutes with a map that keeps the comparison. */
  lemma {:induction false} SortMap<A(!new), B>(xs: seq<A>, f: A -> B, leqA: (A, A) -> bool, leqB: (B, B) -> bool)
    requires forall a, b :: leqA(a, b) == leqB(f(a), f(b))
    ensures Sort(Map(xs, f), leqB) == Map(Sort(xs, leqA), f)
  {
    if xs != [] {
      SortMap(xs[1..], f, leqA, leqB);
      assert Map(xs, f)[1..] == Map(xs[1..], f);
      InsertMap(xs[0], Sort(xs[1..], leqA), f, leqA, leqB);
    }
  }
}
