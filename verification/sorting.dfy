/** Stable sorting over a total preorder, as used by the source's
    `sorted(...)`, `Array.prototype.sort` with a comparator (stable since
    ECMAScript 2019) and `Array.prototype.sort()` on strings. */
module Sorting {

  /** `le` is total and transitive: a comparator that sorts consistently. */
  ghost predicate TotalPreorder<T(!new)>(le: (T, T) -> bool) {
    && (forall a, b :: le(a, b) || le(b, a))
    && (forall a, b, c :: le(a, b) && le(b, c) ==> le(a, c))
  }

  predicate SortedBy<T>(s: seq<T>, le: (T, T) -> bool) {
    forall i, j :: 0 <= i < j < |s| ==> le(s[i], s[j])
  }

  /** Two values the comparator cannot tell apart. */
  predicate Tied<T>(le: (T, T) -> bool, a: T, b: T) {
    le(a, b) && le(b, a)
  }

  /** The elements of `s` tied with `k`, in their order in `s`. */
  function TiedWith<T>(s: seq<T>, k: T, le: (T, T) -> bool): (r: seq<T>)
    ensures |r| <= |s|
  {
    if |s| == 0 then []
    else (if Tied(le, s[0], k) then [s[0]] else []) + TiedWith(s[1..], k, le)
  }

  /** A sort is stable when, for every key, the elements tied with it keep their order. */
  ghost predicate Stable<T(!new)>(input: seq<T>, output: seq<T>, le: (T, T) -> bool) {
    forall k :: TiedWith(output, k, le) == TiedWith(input, k, le)
  }

  /** Inserts `x` before the first element it does not sort after. */
  function Insert<T(!new)>(x: T, s: seq<T>, le: (T, T) -> bool): (r: seq<T>)
    requires TotalPreorder(le)
    ensures multiset(r) == multiset(s) + multiset{x}
    ensures forall i :: 0 <= i < |r| ==> r[i] == x || r[i] in s
    ensures SortedBy(s, le) ==> SortedBy(r, le)
  {
    if |s| == 0 then [x]
    else if le(x, s[0]) then
      assert SortedBy(s, le) ==> forall y :: y in s ==> le(x, y) by {
        if SortedBy(s, le) {
          forall y | y in s ensures le(x, y) {
            var j :| 0 <= j < |s| && s[j] == y;
            if j > 0 { assert le(s[0], s[j]); }
          }
        }
      }
      [x] + s
    else
      var t := Insert(x, s[1..], le);
      assert s == [s[0]] + s[1..];
      assert SortedBy(s, le) ==> SortedBy(s[1..], le);
      assert SortedBy(s, le) ==> forall y :: y in t ==> le(s[0], y) by {
        if SortedBy(s, le) {
          forall y | y in t ensures le(s[0], y) {
            var i :| 0 <= i < |t| && t[i] == y;
            if y != x {
              var j :| 0 <= j < |s[1..]| && s[1..][j] == y;
              assert s[j + 1] == y;
            }
          }
        }
      }
      [s[0]] + t
  }

  /** Insertion sort: stable, sorted, and a permutation of its input. */
  function Sort<T(!new)>(s: seq<T>, le: (T, T) -> bool): (r: seq<T>)
    requires TotalPreorder(le)
    ensures SortedBy(r, le)
    ensures multiset(r) == multiset(s)
    ensures |r| == |s|
  {
    if |s| == 0 then []
    else
      assert s == [s[0]] + s[1..];
      Insert(s[0], Sort(s[1..], le), le)
  }

  /** Read from the front: the head when it is tied with `k`, then the rest. */
  lemma TiedWithCons<T>(a: T, s: seq<T>, k: T, le: (T, T) -> bool)
    ensures TiedWith([a] + s, k, le) == (if Tied(le, a, k) then [a] else []) + TiedWith(s, k, le)
  {
    assert ([a] + s)[0] == a;
    assert ([a] + s)[1..] == s;
  }

  /** What sorts strictly before a value tied with `k` is not tied with `k`. */
  lemma StrictlyBeforeNotTied<T(!new)>(x: T, y: T, k: T, le: (T, T) -> bool)
    requires TotalPreorder(le)
    requires !le(x, y) && Tied(le, x, k)
    ensures !Tied(le, y, k)
  {
  }

  /** One step of `Insert` on a non-empty sequence. */
  lemma InsertStep<T(!new)>(x: T, s: seq<T>, le: (T, T) -> bool)
    requires TotalPreorder(le) && |s| > 0
    ensures Insert(x, s, le) == if le(x, s[0]) then [x] + s else [s[0]] + Insert(x, s[1..], le)
  {
  }

  lemma {:induction false} TiedWithInsert<T(!new)>(x: T, s: seq<T>, k: T, le: (T, T) -> bool)
    requires TotalPreorder(le)
    ensures TiedWith(Insert(x, s, le), k, le)
         == (if Tied(le, x, k) then [x] else []) + TiedWith(s, k, le)
  {
    if |s| == 0 {
      assert Insert(x, s, le) == [x] + s;
      TiedWithCons(x, s, k, le);
    } else {
      InsertStep(x, s, le);
      if le(x, s[0]) {
        TiedWithCons(x, s, k, le);
      } else {
        var tail := s[1..];
        var mine := if Tied(le, x, k) then [x] else [];
        TiedWithInsert(x, tail, k, le);
        if Tied(le, x, k) {
          StrictlyBeforeNotTied(x, s[0], k, le);
        }
        PrependKeepsTied(s[0], Insert(x, tail, le), tail, mine, k, le);
        assert s == [s[0]] + tail;
      }
    }
  }

  /** An element put in front of two sequences whose tied elements differ
      by a prefix keeps them differing by that prefix, provided the prefix
      is empty or the element is not tied. */
  lemma PrependKeepsTied<T>(a: T, t: seq<T>, u: seq<T>, mine: seq<T>, k: T, le: (T, T) -> bool)
    requires TiedWith(t, k, le) == mine + TiedWith(u, k, le)
    requires mine == [] || !Tied(le, a, k)
    ensures TiedWith([a] + t, k, le) == mine + TiedWith([a] + u, k, le)
  {
    TiedWithCons(a, t, k, le);
    TiedWithCons(a, u, k, le);
    if mine == [] {
      assert mine + TiedWith(u, k, le) == TiedWith(u, k, le);
      assert mine + TiedWith([a] + u, k, le) == TiedWith([a] + u, k, le);
    }
  }

  /** Insertion sort keeps elements with equal keys in their input order. */
  lemma {:induction false} SortIsStable<T(!new)>(s: seq<T>, le: (T, T) -> bool)
    requires TotalPreorder(le)
    ensures Stable(s, Sort(s, le), le)
  {
    forall k ensures TiedWith(Sort(s, le), k, le) == TiedWith(s, k, le) {
      SortTiedWith(s, k, le);
    }
  }

  lemma {:induction false} SortTiedWith<T(!new)>(s: seq<T>, k: T, le: (T, T) -> bool)
    requires TotalPreorder(le)
    ensures TiedWith(Sort(s, le), k, le) == TiedWith(s, k, le)
  {
    if |s| > 0 {
      SortTiedWith(s[1..], k, le);
      TiedWithInsert(s[0], Sort(s[1..], le), k, le);
    }
  }

  // ---------------------------------------------------------------------
  // Code-point order on strings

  /** Lexicographic order on strings, comparing characters by code point. */
  predicate LexLe(a: string, b: string) {
    |a| == 0 || (|b| > 0 && (a[0] < b[0] || (a[0] == b[0] && LexLe(a[1..], b[1..]))))
  }

  lemma {:induction false} LexLeTotal(a: string, b: string)
    ensures LexLe(a, b) || LexLe(b, a)
  {
    if |a| > 0 && |b| > 0 && a[0] == b[0] {
      LexLeTotal(a[1..], b[1..]);
    }
  }

  lemma {:induction false} LexLeTransitive(a: string, b: string, c: string)
    requires LexLe(a, b) && LexLe(b, c)
    ensures LexLe(a, c)
  {
    if |a| > 0 && |b| > 0 && |c| > 0 && a[0] == b[0] && b[0] == c[0] {
      LexLeTransitive(a[1..], b[1..], c[1..]);
    }
  }

  lemma {:induction false} LexLeAntisymmetric(a: string, b: string)
    requires LexLe(a, b) && LexLe(b, a)
    ensures a == b
  {
    if |a| > 0 && |b| > 0 {
      LexLeAntisymmetric(a[1..], b[1..]);
      assert a == [a[0]] + a[1..];
      assert b == [b[0]] + b[1..];
    }
  }

  lemma LexLeIsTotalPreorder()
    ensures TotalPreorder(LexLe)
  {
    forall a, b ensures LexLe(a, b) || LexLe(b, a) {
      LexLeTotal(a, b);
    }
    forall a, b, c | LexLe(a, b) && LexLe(b, c) ensures LexLe(a, c) {
      LexLeTransitive(a, b, c);
    }
  }

  /** Strings in ascending code-point order (`sorted(...)` / `.sort()`). */
  function SortStrings(s: seq<string>): (r: seq<string>)
    ensures SortedBy(r, LexLe)
    ensures multiset(r) == multiset(s)
  {
    LexLeIsTotalPreorder();
    Sort(s, LexLe)
  }
}
