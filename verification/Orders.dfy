/** Sorting by a given order, as `sorted` and `list.sort` do it, and the fact that
    a sorted listing of a set is unique. */
module Orders {

  ghost predicate TotalOrder<T(!new)>(leq: (T, T) -> bool) {
    && (forall a, b :: leq(a, b) || leq(b, a))
    && (forall a, b :: leq(a, b) && leq(b, a) ==> a == b)
    && (forall a, b, c :: leq(a, b) && leq(b, c) ==> leq(a, c))
  }

  /** As a total order, but different values may stand side by side, as equal sort keys do. */
  ghost predicate TotalPreorder<T(!new)>(leq: (T, T) -> bool) {
    && (forall a, b :: leq(a, b) || leq(b, a))
    && (forall a, b, c :: leq(a, b) && leq(b, c) ==> leq(a, c))
  }

  ghost predicate Sorted<T>(leq: (T, T) -> bool, s: seq<T>) {
    forall i, j :: 0 <= i < j < |s| ==> leq(s[i], s[j])
  }

  ghost predicate NoDuplicates<T>(s: seq<T>) {
    forall i, j :: 0 <= i < j < |s| ==> s[i] != s[j]
  }

  function Elements<T(==)>(s: seq<T>): set<T> {
    set x | x in s
  }

  // ---------- Insertion sort: the specification of `sorted` ----------

  function Insert<T>(leq: (T, T) -> bool, x: T, s: seq<T>): (r: seq<T>)
    ensures multiset(r) == multiset(s) + multiset{x}
  {
    if s == [] then [x]
    else if leq(x, s[0]) then [x] + s
    else
      assert s == [s[0]] + s[1..];
      [s[0]] + Insert(leq, x, s[1..])
  }

  function SortBy<T>(leq: (T, T) -> bool, s: seq<T>): (r: seq<T>)
    ensures multiset(r) == multiset(s)
  {
    if s == [] then []
    else
      assert s == [s[0]] + s[1..];
      Insert(leq, s[0], SortBy(leq, s[1..]))
  }

  lemma {:induction false} InsertSorted<T(!new)>(leq: (T, T) -> bool, x: T, s: seq<T>)
    requires TotalPreorder(leq)
    requires Sorted(leq, s)
    ensures Sorted(leq, Insert(leq, x, s))
  {
    if s != [] && !leq(x, s[0]) {
      InsertSorted(leq, x, s[1..]);
      var rest := Insert(leq, x, s[1..]);
      forall y | y in rest ensures leq(s[0], y) {
        assert y in multiset(rest);
      }
    }
  }

  lemma {:induction false} SortBySorted<T(!new)>(leq: (T, T) -> bool, s: seq<T>)
    requires TotalPreorder(leq)
    ensures Sorted(leq, SortBy(leq, s))
  {
    if s != [] {
      SortBySorted(leq, s[1..]);
      InsertSorted(leq, s[0], SortBy(leq, s[1..]));
    }
  }

  lemma SameMembers<T>(a: seq<T>, b: seq<T>)
    requires multiset(a) == multiset(b)
    ensures |a| == |b|
    ensures forall x :: x in a <==> x in b
    ensures Elements(a) == Elements(b)
    ensures NoDuplicates(a) ==> NoDuplicates(b)
  {
    assert |multiset(a)| == |a| && |multiset(b)| == |b|;
    assert forall x :: x in a <==> x in multiset(a);
    assert forall x :: x in b <==> x in multiset(b);
    if NoDuplicates(a) {
      forall i, j | 0 <= i < j < |b| ensures b[i] != b[j] {
        if b[i] == b[j] {
          RepeatedTwice(b, i, j);
          AtMostOnce(a, b[i]);
        }
      }
    }
  }

  lemma RepeatedTwice<T>(s: seq<T>, i: int, j: int)
    requires 0 <= i < j < |s| && s[i] == s[j]
    ensures multiset(s)[s[i]] >= 2
  {
    assert s == s[..j] + s[j..];
    assert s[i] in multiset(s[..j]) by { assert s[..j][i] == s[i]; }
    assert s[i] in multiset(s[j..]) by { assert s[j..][0] == s[j]; }
  }

  lemma {:induction false} AtMostOnce<T>(s: seq<T>, x: T)
    requires NoDuplicates(s)
    ensures multiset(s)[x] <= 1
  {
    if s != [] {
      assert s == [s[0]] + s[1..];
      AtMostOnce(s[1..], x);
      assert x == s[0] ==> x !in s[1..];
    }
  }

  /** What `sorted` returns on a list without duplicates. */
  lemma SortByLists<T(!new)>(leq: (T, T) -> bool, s: seq<T>)
    requires TotalOrder(leq)
    ensures Sorted(leq, SortBy(leq, s))
    ensures |SortBy(leq, s)| == |s|
    ensures Elements(SortBy(leq, s)) == Elements(s)
    ensures forall x :: x in SortBy(leq, s) <==> x in s
    ensures NoDuplicates(s) ==> NoDuplicates(SortBy(leq, s))
  {
    SortBySorted(leq, s);
    SameMembers(s, SortBy(leq, s));
  }

  /** A set has one sorted listing without duplicates. */
  lemma {:induction false} SortedListingUnique<T(!new)>(leq: (T, T) -> bool, a: seq<T>, b: seq<T>)
    requires TotalOrder(leq)
    requires Sorted(leq, a) && NoDuplicates(a)
    requires Sorted(leq, b) && NoDuplicates(b)
    requires Elements(a) == Elements(b)
    ensures a == b
  {
    assert |b| > 0 ==> b[0] in b && b[0] in Elements(b);
    if a == [] {
      assert Elements(a) == {};
      assert |b| == 0;
    } else {
      assert a[0] in Elements(a);
      assert b != [] && b[0] in Elements(b);
      assert leq(a[0], b[0]) && leq(b[0], a[0]);
      assert a[0] == b[0];
      forall x ensures x in Elements(a[1..]) <==> x in Elements(b[1..]) {
        assert x in a[1..] <==> (x in Elements(a) && x != a[0]);
        assert x in b[1..] <==> (x in Elements(b) && x != b[0]);
      }
      assert Elements(a[1..]) == Elements(b[1..]);
      SortedListingUnique(leq, a[1..], b[1..]);
      assert a == [a[0]] + a[1..] && b == [b[0]] + b[1..];
    }
  }

  // ---------- Lexicographic orders: strings, and tuples of strings ----------

  predicate LexLeq<T(==)>(leq: (T, T) -> bool, a: seq<T>, b: seq<T>) {
    if a == [] then true
    else if b == [] then false
    else if a[0] != b[0] then leq(a[0], b[0])
    else LexLeq(leq, a[1..], b[1..])
  }

  lemma {:induction false} LexTotal<T(!new)>(leq: (T, T) -> bool, a: seq<T>, b: seq<T>)
    requires TotalOrder(leq)
    ensures LexLeq(leq, a, b) || LexLeq(leq, b, a)
    ensures LexLeq(leq, a, b) && LexLeq(leq, b, a) ==> a == b
  {
    if a != [] && b != [] && a[0] == b[0] {
      LexTotal(leq, a[1..], b[1..]);
      assert a == [a[0]] + a[1..] && b == [b[0]] + b[1..];
    }
  }

  lemma {:induction false} LexTransitive<T(!new)>(leq: (T, T) -> bool, a: seq<T>, b: seq<T>, c: seq<T>)
    requires TotalOrder(leq)
    requires LexLeq(leq, a, b) && LexLeq(leq, b, c)
    ensures LexLeq(leq, a, c)
  {
    if a != [] && a[0] == b[0] == c[0] {
      LexTransitive(leq, a[1..], b[1..], c[1..]);
    }
  }

  lemma LexTotalOrder<T(!new)>(leq: (T, T) -> bool, lex: (seq<T>, seq<T>) -> bool)
    requires TotalOrder(leq)
    requires forall a, b :: lex(a, b) == LexLeq(leq, a, b)
    ensures TotalOrder(lex)
  {
    forall a, b ensures lex(a, b) || lex(b, a) { LexTotal(leq, a, b); }
    forall a, b | lex(a, b) && lex(b, a) ensures a == b { LexTotal(leq, a, b); }
    forall a, b, c | lex(a, b) && lex(b, c) ensures lex(a, c) { LexTransitive(leq, a, b, c); }
  }

  predicate CharLeq(a: char, b: char) { a <= b }

  /** How Python compares two `str` values: code point by code point. */
  predicate NameLeq(a: string, b: string) { LexLeq(CharLeq, a, b) }

  /** How Python compares two tuples of `str`. */
  predicate NamesLeq(a: seq<string>, b: seq<string>) { LexLeq(NameLeq, a, b) }

  /** Two names compare by the first character in which they differ; a beginning comes first. */
  lemma NameLeqMeans(a: string, b: string)
    ensures NameLeq(a, b) <==> a <= b || exists i :: 0 <= i < |a| && i < |b| && a[..i] == b[..i] && a[i] < b[i]
  {
    LexMeans(CharLeq, a, b);
    if i :| DifferAt(CharLeq, a, b, i) {
      assert 0 <= i < |a| && i < |b| && a[..i] == b[..i] && a[i] < b[i];
    }
    if i :| 0 <= i < |a| && i < |b| && a[..i] == b[..i] && a[i] < b[i] {
      assert DifferAt(CharLeq, a, b, i);
    }
  }

  /** Two lists of names compare by the first name in which they differ. */
  lemma NamesLeqMeans(a: seq<string>, b: seq<string>)
    ensures NamesLeq(a, b) <==>
      a <= b || exists i :: 0 <= i < |a| && i < |b| && a[..i] == b[..i] && a[i] != b[i] && NameLeq(a[i], b[i])
  {
    LexMeans(NameLeq, a, b);
    if i :| DifferAt(NameLeq, a, b, i) {
      assert 0 <= i < |a| && i < |b| && a[..i] == b[..i] && a[i] != b[i] && NameLeq(a[i], b[i]);
    }
    if i :| 0 <= i < |a| && i < |b| && a[..i] == b[..i] && a[i] != b[i] && NameLeq(a[i], b[i]) {
      assert DifferAt(NameLeq, a, b, i);
    }
  }

  ghost predicate DifferAt<T>(leq: (T, T) -> bool, a: seq<T>, b: seq<T>, i: int) {
    0 <= i < |a| && i < |b| && a[..i] == b[..i] && a[i] != b[i] && leq(a[i], b[i])
  }

  lemma SameStart<T>(a: seq<T>, b: seq<T>, i: nat)
    requires 0 < i <= |a| && i <= |b| && a[..i] == b[..i]
    ensures a[0] == b[0]
  {
    assert a[..i][0] == b[..i][0];
  }

  lemma {:induction false} LexMeans<T(!new)>(leq: (T, T) -> bool, a: seq<T>, b: seq<T>)
    ensures LexLeq(leq, a, b) <==> a <= b || exists i :: DifferAt(leq, a, b, i)
    decreases |a|
  {
    if a != [] && b != [] {
      if a[0] == b[0] {
        LexMeans(leq, a[1..], b[1..]);
        assert a == [a[0]] + a[1..] && b == [b[0]] + b[1..];
        if i :| DifferAt(leq, a[1..], b[1..], i) {
          assert a[..i + 1] == [a[0]] + a[1..][..i] && b[..i + 1] == [b[0]] + b[1..][..i];
          assert DifferAt(leq, a, b, i + 1);
        }
        if i :| DifferAt(leq, a, b, i) {
          assert a[i] != b[i] && i > 0;
          assert a[1..][..i - 1] == a[..i][1..] && b[1..][..i - 1] == b[..i][1..];
          assert DifferAt(leq, a[1..], b[1..], i - 1);
        }
      } else {
        if i :| DifferAt(leq, a, b, i) && i > 0 { SameStart(a, b, i); }
        if leq(a[0], b[0]) { assert DifferAt(leq, a, b, 0); }
      }
    }
  }

  lemma NameOrders()
    ensures TotalOrder(NameLeq)
    ensures TotalOrder(NamesLeq)
  {
    LexTotalOrder(CharLeq, NameLeq);
    LexTotalOrder(NameLeq, NamesLeq);
  }
}
