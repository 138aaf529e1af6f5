/** Python's `list.sort(key=key, reverse=True)` and `sorted(xs, reverse=True)` on
    string keys: a stable sort into descending key order. */
module Sorting {
  import opened Wrappers
  import opened PyStr

  /** No key is smaller than a key after it. */
  predicate Descending<T>(key: T -> string, xs: seq<T>) {
    forall i, j :: 0 <= i < j < |xs| ==> !LexLess(key(xs[i]), key(xs[j]))
  }

  /** Places `x` before the first element whose key is smaller than its own, and
      so after every element whose key equals its own. */
  function Insert<T>(key: T -> string, x: T, sorted: seq<T>): (r: seq<T>)
    ensures |r| == |sorted| + 1
    ensures multiset(r) == multiset(sorted) + multiset{x}
  {
    if sorted == [] then [x]
    else if LexLess(key(sorted[0]), key(x)) then [x] + sorted
    else
      assert sorted == [sorted[0]] + sorted[1..];
      [sorted[0]] + Insert(key, x, sorted[1..])
  }

  /** The stable descending sort, element by element in the original order. */
  function SortDesc<T>(key: T -> string, xs: seq<T>): (r: seq<T>)
    ensures multiset(r) == multiset(xs)
  {
    if xs == [] then []
    else
      assert xs == xs[..|xs| - 1] + [xs[|xs| - 1]];
      Insert(key, xs[|xs| - 1], SortDesc(key, xs[..|xs| - 1]))
  }

  /** The elements whose key is `k`. */
  function HasKey<T>(key: T -> string, k: string): T -> bool {
    x => key(x) == k
  }

  /** An element is greater than or equal to every element of a descending
      sequence as soon as it is to the first. */
  lemma HeadBounds<T>(key: T -> string, s: seq<T>, x: T)
    requires Descending(key, s) && s != [] && LexLess(key(s[0]), key(x))
    ensures forall j :: 0 <= j < |s| ==> LexLess(key(s[j]), key(x))
  {
    forall j | 0 <= j < |s|
      ensures LexLess(key(s[j]), key(x))
    {
      if j > 0 {
        LexLessTotal(key(s[0]), key(s[j]));
        if key(s[j]) != key(s[0]) {
          LexLessTransitive(key(s[j]), key(s[0]), key(x));
        }
      }
    }
  }

  lemma DescendingTail<T>(key: T -> string, s: seq<T>)
    requires Descending(key, s) && s != []
    ensures Descending(key, s[1..])
  {
    var rest := s[1..];
    forall i, j | 0 <= i < j < |rest|
      ensures !LexLess(key(rest[i]), key(rest[j]))
    {
      assert rest[i] == s[i + 1] && rest[j] == s[j + 1];
    }
  }

  /** A head no smaller than anything after it keeps a descending tail descending. */
  lemma ConsDescending<T>(key: T -> string, h: T, tail: seq<T>)
    requires Descending(key, tail)
    requires forall j :: 0 <= j < |tail| ==> !LexLess(key(h), key(tail[j]))
    ensures Descending(key, [h] + tail)
  {
    var r := [h] + tail;
    forall i, j | 0 <= i < j < |r|
      ensures !LexLess(key(r[i]), key(r[j]))
    {
      assert r[j] == tail[j - 1];
      if i > 0 {
        assert r[i] == tail[i - 1];
      }
    }
  }

  /** Whatever lands after the first element of a descending sequence is no
      greater than it. */
  lemma InsertBelowHead<T>(key: T -> string, x: T, s: seq<T>)
    requires Descending(key, s) && s != [] && !LexLess(key(s[0]), key(x))
    ensures forall j :: 0 <= j < |Insert(key, x, s[1..])| ==> !LexLess(key(s[0]), key(Insert(key, x, s[1..])[j]))
  {
    var rest := s[1..];
    var tail := Insert(key, x, rest);
    forall j | 0 <= j < |tail|
      ensures !LexLess(key(s[0]), key(tail[j]))
    {
      assert tail[j] in multiset(tail);
      if tail[j] != x {
        assert tail[j] in multiset(rest);
        var m :| 0 <= m < |rest| && rest[m] == tail[j];
        assert s[m + 1] == tail[j];
      }
    }
  }

  lemma {:induction false} InsertDescending<T>(key: T -> string, x: T, s: seq<T>)
    requires Descending(key, s)
    ensures Descending(key, Insert(key, x, s))
  {
    if s == [] {
    } else if LexLess(key(s[0]), key(x)) {
      HeadBounds(key, s, x);
      forall j | 0 <= j < |s|
        ensures !LexLess(key(x), key(s[j]))
      {
        LexLessAsymmetric(key(s[j]), key(x));
      }
      ConsDescending(key, x, s);
    } else {
      DescendingTail(key, s);
      InsertDescending(key, x, s[1..]);
      InsertBelowHead(key, x, s);
      ConsDescending(key, s[0], Insert(key, x, s[1..]));
    }
  }

  /** Inserting keeps every key's elements in their order, the new one last. */
  lemma {:induction false} InsertStable<T>(key: T -> string, x: T, s: seq<T>, k: string)
    requires Descending(key, s)
    ensures Filter(HasKey(key, k), Insert(key, x, s))
         == Filter(HasKey(key, k), s) + Filter(HasKey(key, k), [x])
  {
    var p := HasKey(key, k);
    if s == [] {
      NilAppend([x]);
    } else if LexLess(key(s[0]), key(x)) {
      assert Insert(key, x, s) == [x] + s;
      InsertFirstStable(key, x, s, k);
    } else {
      var rest := s[1..];
      assert Insert(key, x, s) == [s[0]] + Insert(key, x, rest);
      DescendingTail(key, s);
      InsertStable(key, x, rest, k);
      FilterAppend(p, [s[0]], Insert(key, x, rest));
      FilterAppend(p, [s[0]], rest);
      FirstSplit(s);
    }
  }

  /** An element greater than all goes first, and no element shares its key. */
  lemma InsertFirstStable<T>(key: T -> string, x: T, s: seq<T>, k: string)
    requires Descending(key, s) && s != [] && LexLess(key(s[0]), key(x))
    ensures Filter(HasKey(key, k), [x] + s) == Filter(HasKey(key, k), s) + Filter(HasKey(key, k), [x])
  {
    var p := HasKey(key, k);
    FilterAppend(p, [x], s);
    NilAppend([x]);
    if key(x) == k {
      HeadBounds(key, s, x);
      forall j | 0 <= j < |s|
        ensures !p(s[j])
      {
        LexLessIrreflexive(k);
      }
      FilterNone(p, s);
    } else {
      assert Filter(p, [x]) == [];
    }
  }

  /** The result is in descending key order. */
  lemma {:induction false} SortDescending<T>(key: T -> string, xs: seq<T>)
    ensures Descending(key, SortDesc(key, xs))
  {
    if xs != [] {
      SortDescending(key, xs[..|xs| - 1]);
      InsertDescending(key, xs[|xs| - 1], SortDesc(key, xs[..|xs| - 1]));
    }
  }

  /** Elements with equal keys keep their original order. */
  lemma {:induction false} SortStable<T>(key: T -> string, xs: seq<T>, k: string)
    ensures Filter(HasKey(key, k), SortDesc(key, xs)) == Filter(HasKey(key, k), xs)
  {
    if xs != [] {
      var init, last := xs[..|xs| - 1], xs[|xs| - 1];
      SortStable(key, init, k);
      SortDescending(key, init);
      InsertStable(key, last, SortDesc(key, init), k);
      FilterAppend(HasKey(key, k), init, [last]);
      LastSplit(xs);
    }
  }

  /** A sort that is already done changes nothing. */
  lemma {:induction false} SortSorted<T>(key: T -> string, xs: seq<T>)
    requires Descending(key, xs)
    ensures SortDesc(key, xs) == xs
  {
    if xs != [] {
      var init, last := xs[..|xs| - 1], xs[|xs| - 1];
      assert Descending(key, init) by {
        forall i, j | 0 <= i < j < |init|
          ensures !LexLess(key(init[i]), key(init[j]))
        {
          assert init[i] == xs[i] && init[j] == xs[j];
        }
      }
      SortSorted(key, init);
      InsertAtEnd(key, last, init);
      LastSplit(xs);
    }
  }

  /** An element no greater than any before it goes at the end. */
  lemma {:induction false} InsertAtEnd<T>(key: T -> string, x: T, s: seq<T>)
    requires forall i :: 0 <= i < |s| ==> !LexLess(key(s[i]), key(x))
    ensures Insert(key, x, s) == s + [x]
  {
    if s != [] {
      InsertAtEnd(key, x, s[1..]);
      AppendAssoc([s[0]], s[1..], [x]);
      FirstSplit(s);
    }
  }

  /** The key of a string is the string itself. */
  function Itself(s: string): string {
    s
  }

  /** Strings without repeats in descending order are in strictly descending order. */
  lemma DistinctDescending(xs: seq<string>)
    requires Descending(Itself, xs)
    requires forall i, j :: 0 <= i < j < |xs| ==> xs[i] != xs[j]
    ensures forall i, j :: 0 <= i < j < |xs| ==> LexLess(xs[j], xs[i])
  {
    forall i, j | 0 <= i < j < |xs|
      ensures LexLess(xs[j], xs[i])
    {
      assert !LexLess(Itself(xs[i]), Itself(xs[j]));
      LexLessTotal(xs[i], xs[j]);
    }
  }

  /** Past a shared greatest element, what one holds the other holds. */
  lemma TailMember(a: seq<string>, b: seq<string>, x: string)
    requires forall i, j :: 0 <= i < j < |a| ==> LexLess(a[j], a[i])
    requires a != [] && b != [] && a[0] == b[0] && x in a[1..] && x in b
    ensures x in b[1..]
  {
    var i :| 1 <= i < |a| && a[i] == x;
    LexLessIrreflexive(a[0]);
    var j :| 0 <= j < |b| && b[j] == x;
    assert j != 0;
    assert b[1..][j - 1] == x;
  }

  /** Two strictly descending sequences of the same strings are the same sequence. */
  lemma {:induction false} StrictlyDescendingUnique(a: seq<string>, b: seq<string>)
    requires forall i, j :: 0 <= i < j < |a| ==> LexLess(a[j], a[i])
    requires forall i, j :: 0 <= i < j < |b| ==> LexLess(b[j], b[i])
    requires forall x :: x in a <==> x in b
    ensures a == b
    decreases |a|
  {
    assert a != [] ==> a[0] in b;
    assert b != [] ==> b[0] in a;
    if a != [] && b != [] {
      // The first element of each is the greatest of the shared strings.
      if a[0] != b[0] {
        assert a[0] in b;
        var j :| 0 <= j < |b| && b[j] == a[0];
        assert b[0] in a;
        var i :| 0 <= i < |a| && a[i] == b[0];
        assert LexLess(b[j], b[0]) && LexLess(a[i], a[0]);
        LexLessAsymmetric(a[0], b[0]);
        assert false;
      }
      forall x
        ensures x in a[1..] ==> x in b[1..]
      {
        if x in a[1..] {
          TailMember(a, b, x);
        }
      }
      forall x
        ensures x in b[1..] ==> x in a[1..]
      {
        if x in b[1..] {
          TailMember(b, a, x);
        }
      }
      StrictlyDescendingUnique(a[1..], b[1..]);
    }
  }
}
