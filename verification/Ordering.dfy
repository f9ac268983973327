/** Comparing strings, and sorting by string keys. */
module Ordering {

  /** Strings by their first difference, a prefix first. */
  predicate Less(a: string, b: string) {
    b != [] && (a == [] || a[0] < b[0] || (a[0] == b[0] && Less(a[1..], b[1..])))
  }

  /** Keys of several strings, the first difference deciding. */
  predicate KeyLess(a: seq<string>, b: seq<string>) {
    b != [] && (a == [] || Less(a[0], b[0]) || (a[0] == b[0] && KeyLess(a[1..], b[1..])))
  }

  lemma {:induction false} LessTransitive(a: string, b: string, c: string)
    requires Less(a, b) && Less(b, c)
    ensures Less(a, c)
  {
    if a != [] && a[0] == b[0] && b[0] == c[0] {
      LessTransitive(a[1..], b[1..], c[1..]);
    }
  }

  lemma {:induction false} LessTotal(a: string, b: string)
    ensures Less(a, b) || a == b || Less(b, a)
    ensures !(Less(a, b) && Less(b, a)) && (a == b ==> !Less(a, b))
  {
    if a != [] && b != [] {
      LessTotal(a[1..], b[1..]);
      assert a == [a[0]] + a[1..] && b == [b[0]] + b[1..];
    }
  }

  lemma {:induction false} KeyLessTransitive(a: seq<string>, b: seq<string>, c: seq<string>)
    requires KeyLess(a, b) && KeyLess(b, c)
    ensures KeyLess(a, c)
  {
    if a != [] {
      if a[0] == b[0] && b[0] == c[0] {
        if KeyLess(a[1..], b[1..]) && KeyLess(b[1..], c[1..]) {
          KeyLessTransitive(a[1..], b[1..], c[1..]);
        } else {
          LessTotal(a[0], b[0]);
          LessTotal(b[0], c[0]);
        }
      } else if Less(a[0], b[0]) && Less(b[0], c[0]) {
        LessTransitive(a[0], b[0], c[0]);
      }
    }
  }

  lemma {:induction false} KeyLessTotal(a: seq<string>, b: seq<string>)
    ensures KeyLess(a, b) || a == b || KeyLess(b, a)
    ensures !(KeyLess(a, b) && KeyLess(b, a)) && (a == b ==> !KeyLess(a, b))
  {
    if a != [] && b != [] {
      LessTotal(a[0], b[0]);
      KeyLessTotal(a[1..], b[1..]);
      assert a == [a[0]] + a[1..] && b == [b[0]] + b[1..];
    }
  }

  // ---- Sorting ----

  /** No element's key comes before an earlier element's. */
  ghost predicate Sorted<T>(xs: seq<T>, key: T -> seq<string>) {
    forall i, j :: 0 <= i < j < |xs| ==> !KeyLess(key(xs[j]), key(xs[i]))
  }

  function Insert<T>(x: T, xs: seq<T>, key: T -> seq<string>): seq<T> {
    if xs == [] then [x]
    else if KeyLess(key(x), key(xs[0])) then [x] + xs
    else [xs[0]] + Insert(x, xs[1..], key)
  }

  /** A stable sort: elements with equal keys keep their order. */
  function Sort<T>(xs: seq<T>, key: T -> seq<string>): seq<T> {
    if xs == [] then [] else Insert(xs[|xs| - 1], Sort(xs[..|xs| - 1], key), key)
  }

  lemma InsertedFirst<T>(x: T, xs: seq<T>, key: T -> seq<string>)
    requires Sorted(xs, key) && xs != [] && KeyLess(key(x), key(xs[0]))
    ensures Sorted([x] + xs, key)
  {
    forall j | 0 <= j < |xs| ensures !KeyLess(key(xs[j]), key(x)) {
      KeyLessTotal(key(xs[j]), key(x));
      if KeyLess(key(xs[j]), key(x)) {
        KeyLessTransitive(key(xs[j]), key(x), key(xs[0]));
      }
    }
  }

  lemma InsertedLater<T>(x: T, xs: seq<T>, rest: seq<T>, key: T -> seq<string>)
    requires Sorted(xs, key) && xs != [] && !KeyLess(key(x), key(xs[0]))
    requires Sorted(rest, key) && multiset(rest) == multiset(xs[1..]) + multiset{x}
    ensures Sorted([xs[0]] + rest, key)
  {
    forall j | 0 <= j < |rest| ensures !KeyLess(key(rest[j]), key(xs[0])) {
      assert rest[j] in multiset(rest);
      if rest[j] != x {
        var i :| 0 <= i < |xs[1..]| && xs[1..][i] == rest[j];
        assert xs[i + 1] == rest[j];
      }
    }
  }

  lemma {:induction false} InsertSorted<T>(x: T, xs: seq<T>, key: T -> seq<string>)
    requires Sorted(xs, key)
    ensures Sorted(Insert(x, xs, key), key)
    ensures multiset(Insert(x, xs, key)) == multiset(xs) + multiset{x}
  {
    if xs == [] {
    } else if KeyLess(key(x), key(xs[0])) {
      InsertedFirst(x, xs, key);
    } else {
      SortedRest(xs, key);
      InsertSorted(x, xs[1..], key);
      InsertedLater(x, xs, Insert(x, xs[1..], key), key);
      assert xs == [xs[0]] + xs[1..];
    }
  }

  /** Sorting rearranges its elements into key order. */
  lemma {:induction false} SortSorts<T>(xs: seq<T>, key: T -> seq<string>)
    ensures Sorted(Sort(xs, key), key)
    ensures multiset(Sort(xs, key)) == multiset(xs)
  {
    if xs != [] {
      SortSorts(xs[..|xs| - 1], key);
      InsertSorted(xs[|xs| - 1], Sort(xs[..|xs| - 1], key), key);
      assert xs == xs[..|xs| - 1] + [xs[|xs| - 1]];
    }
  }

  /** The key tells any two different elements apart. */
  ghost predicate KeyIdentifies<T(!new)>(xs: multiset<T>, key: T -> seq<string>) {
    forall x, y :: x in xs && y in xs && key(x) == key(y) ==> x == y
  }

  lemma FirstIsLeast<T>(xs: seq<T>, key: T -> seq<string>, x: T)
    requires Sorted(xs, key) && x in multiset(xs)
    ensures !KeyLess(key(x), key(xs[0]))
  {
    var i :| 0 <= i < |xs| && xs[i] == x;
    KeyLessTotal(key(x), key(xs[0]));
  }

  /** Where keys tell elements apart there is one sorted arrangement, whichever algorithm finds it. */
  lemma {:induction false} SortedIsUnique<T(!new)>(xs: seq<T>, ys: seq<T>, key: T -> seq<string>)
    requires Sorted(xs, key) && Sorted(ys, key) && multiset(xs) == multiset(ys)
    requires KeyIdentifies(multiset(xs), key)
    ensures xs == ys
  {
    SameLength(xs, ys);
    if xs != [] {
      FirstsAgree(xs, ys, key);
      RestsAgree(xs, ys);
      IdentifiesRest(multiset(xs), multiset(xs[1..]), key);
      SortedRest(xs, key);
      SortedRest(ys, key);
      SortedIsUnique(xs[1..], ys[1..], key);
      assert xs == [xs[0]] + xs[1..] && ys == [ys[0]] + ys[1..];
    }
  }

  lemma SameLength<T>(xs: seq<T>, ys: seq<T>)
    requires multiset(xs) == multiset(ys)
    ensures |xs| == |ys|
  {
    assert |multiset(xs)| == |xs| && |multiset(ys)| == |ys|;
  }

  lemma FirstsAgree<T(!new)>(xs: seq<T>, ys: seq<T>, key: T -> seq<string>)
    requires Sorted(xs, key) && Sorted(ys, key) && multiset(xs) == multiset(ys)
    requires KeyIdentifies(multiset(xs), key) && xs != [] && ys != []
    ensures xs[0] == ys[0]
  {
    assert xs[0] in multiset(xs) && ys[0] in multiset(ys);
    FirstIsLeast(ys, key, xs[0]);
    FirstIsLeast(xs, key, ys[0]);
    KeyLessTotal(key(xs[0]), key(ys[0]));
  }

  lemma RestsAgree<T>(xs: seq<T>, ys: seq<T>)
    requires xs != [] && ys != [] && xs[0] == ys[0] && multiset(xs) == multiset(ys)
    ensures multiset(xs[1..]) == multiset(ys[1..]) && multiset(xs[1..]) <= multiset(xs)
  {
    assert xs == [xs[0]] + xs[1..] && ys == [ys[0]] + ys[1..];
    assert multiset(xs[1..]) == multiset(xs) - multiset{xs[0]};
    assert multiset(ys[1..]) == multiset(ys) - multiset{ys[0]};
  }

  lemma SortedRest<T>(xs: seq<T>, key: T -> seq<string>)
    requires Sorted(xs, key) && xs != []
    ensures Sorted(xs[1..], key)
  {
  }

  lemma IdentifiesRest<T(!new)>(xs: multiset<T>, ys: multiset<T>, key: T -> seq<string>)
    requires KeyIdentifies(xs, key) && ys <= xs
    ensures KeyIdentifies(ys, key)
  {
    forall x, y | x in ys && y in ys && key(x) == key(y) ensures x == y {
      assert x in xs && y in xs;
    }
  }

  ghost predicate NoDuplicates<T>(xs: seq<T>) {
    forall i, j :: 0 <= i < j < |xs| ==> xs[i] != xs[j]
  }

  lemma {:induction false} NoDuplicatesCounts<T>(xs: seq<T>)
    ensures NoDuplicates(xs) <==> forall x :: x in multiset(xs) ==> multiset(xs)[x] == 1
  {
    if xs != [] {
      var rest := xs[1..];
      assert xs == [xs[0]] + rest;
      NoDuplicatesCounts(rest);
      if NoDuplicates(xs) {
        assert NoDuplicates(rest);
        assert xs[0] !in rest;
      }
      if forall x :: x in multiset(xs) ==> multiset(xs)[x] == 1 {
        assert multiset(xs)[xs[0]] == 1;
        assert xs[0] !in multiset(rest);
        forall x | x in multiset(rest) ensures multiset(rest)[x] == 1 {
          assert x in multiset(xs);
        }
      }
    }
  }

  // ---- Collecting over a sequence ----

  /** What `f` gives for each element, in order. */
  ghost function Collect<T, U>(f: T -> seq<U>, xs: seq<T>): seq<U> {
    if xs == [] then [] else Collect(f, xs[..|xs| - 1]) + f(xs[|xs| - 1])
  }

  lemma {:induction false} CollectAppend<T, U>(f: T -> seq<U>, xs: seq<T>, ys: seq<T>)
    ensures Collect(f, xs + ys) == Collect(f, xs) + Collect(f, ys)
  {
    if ys == [] {
      assert xs + ys == xs;
    } else {
      var n := |ys| - 1;
      CollectAppend(f, xs, ys[..n]);
      assert (xs + ys)[..|xs| + n] == xs + ys[..n];
    }
  }

  /** Rearranging the elements only rearranges what is collected. */
  lemma {:induction false} CollectRearranged<T, U>(f: T -> seq<U>, xs: seq<T>, ys: seq<T>)
    requires multiset(xs) == multiset(ys)
    ensures multiset(Collect(f, xs)) == multiset(Collect(f, ys))
  {
    if xs == [] {
      assert |multiset(ys)| == |ys|;
    } else {
      var n := |xs| - 1;
      var x := xs[n];
      assert xs == xs[..n] + [x];
      assert x in multiset(ys);
      var j :| 0 <= j < |ys| && ys[j] == x;
      var rest := ys[..j] + ys[j + 1..];
      assert ys == ys[..j] + [x] + ys[j + 1..];
      assert multiset(rest) == multiset(ys) - multiset{x};
      CollectRearranged(f, xs[..n], rest);
      CollectAppend(f, ys[..j], ys[j + 1..]);
      CollectAppend(f, ys[..j] + [x], ys[j + 1..]);
      CollectAppend(f, ys[..j], [x]);
      CollectOne(f, x);
    }
  }

  lemma CollectOne<T, U>(f: T -> seq<U>, x: T)
    ensures Collect(f, [x]) == f(x)
  {
    assert [x][..0] == [];
  }
}
