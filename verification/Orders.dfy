/** Orders used by the rest of the project: Python's element-wise comparison of
    strings and tuples, and `sorted` with a key. */
module Orders {

  /** Strict order that is total up to equality of values. */
  ghost predicate StrictTotal<T(!new)>(lt: (T, T) -> bool) {
    && (forall x :: !lt(x, x))
    && (forall x, y, z :: lt(x, y) && lt(y, z) ==> lt(x, z))
    && (forall x, y :: lt(x, y) || x == y || lt(y, x))
  }

  /** Strict order on keys: incomparable elements have equal keys. */
  ghost predicate StrictWeak<T(!new)>(lt: (T, T) -> bool) {
    && (forall x :: !lt(x, x))
    && (forall x, y, z :: lt(x, y) && lt(y, z) ==> lt(x, z))
    && (forall x, y, z :: !lt(x, y) && !lt(y, z) ==> !lt(x, z))
  }

  // ----- element-wise comparison of sequences

  predicate Lex<T(==)>(lt: (T, T) -> bool, a: seq<T>, b: seq<T>) {
    b != [] &&
    (a == [] || lt(a[0], b[0]) || (a[0] == b[0] && Lex(lt, a[1..], b[1..])))
  }

  lemma {:induction false} LexIrreflexive<T(!new)>(lt: (T, T) -> bool, a: seq<T>)
    requires StrictTotal(lt)
    ensures !Lex(lt, a, a)
  {
    if a != [] {
      LexIrreflexive(lt, a[1..]);
    }
  }

  lemma {:induction false} LexTransitive<T(!new)>(lt: (T, T) -> bool, a: seq<T>, b: seq<T>, c: seq<T>)
    requires StrictTotal(lt) && Lex(lt, a, b) && Lex(lt, b, c)
    ensures Lex(lt, a, c)
  {
    if a != [] && a[0] == b[0] == c[0] {
      LexTransitive(lt, a[1..], b[1..], c[1..]);
    }
  }

  lemma {:induction false} LexTotal<T(!new)>(lt: (T, T) -> bool, a: seq<T>, b: seq<T>)
    requires StrictTotal(lt)
    ensures Lex(lt, a, b) || a == b || Lex(lt, b, a)
  {
    if a != [] && b != [] && a[0] == b[0] {
      LexTotal(lt, a[1..], b[1..]);
      assert a == [a[0]] + a[1..] && b == [b[0]] + b[1..];
    }
  }

  /** A sequence precedes each of its proper extensions. */
  lemma {:induction false} LexPrefix<T(!new)>(lt: (T, T) -> bool, a: seq<T>, b: seq<T>)
    requires StrictTotal(lt) && a < b
    ensures Lex(lt, a, b)
  {
    if a != [] {
      LexPrefix(lt, a[1..], b[1..]);
    }
  }

  /** Appending keeps the order, unless the smaller side is a prefix of the larger. */
  lemma {:induction false} LexAppend<T(!new)>(lt: (T, T) -> bool, a: seq<T>, b: seq<T>, x: seq<T>, y: seq<T>)
    requires StrictTotal(lt) && Lex(lt, a, b) && !(a <= b)
    ensures Lex(lt, a + x, b + y)
  {
    assert a != [];
    if a[0] == b[0] {
      assert (a + x)[1..] == a[1..] + x && (b + y)[1..] == b[1..] + y;
      assert a == [a[0]] + a[1..] && b == [b[0]] + b[1..];
      LexAppend(lt, a[1..], b[1..], x, y);
    }
  }

  /** After a common start the next elements decide. */
  lemma {:induction false} LexAfter<T(!new)>(lt: (T, T) -> bool, s: seq<T>, x: T, y: T)
    requires lt(x, y)
    ensures Lex(lt, s + [x], s + [y])
  {
    if s != [] {
      assert (s + [x])[1..] == s[1..] + [x] && (s + [y])[1..] == s[1..] + [y];
      LexAfter(lt, s[1..], x, y);
    }
  }

  /** What the order means: a proper prefix comes first, and otherwise the first difference decides. */
  lemma {:induction false} LexMeaning<T(!new)>(lt: (T, T) -> bool, a: seq<T>, b: seq<T>)
    requires StrictTotal(lt)
    ensures Lex(lt, a, b) <==> a < b || exists k :: DiffersAt(a, b, k) && lt(a[k], b[k])
  {
    if a != [] && b != [] {
      LexMeaning(lt, a[1..], b[1..]);
      if a[0] == b[0] {
        assert a == [a[0]] + a[1..] && b == [b[0]] + b[1..];
        forall k ensures DiffersAt(a, b, k + 1) <==> DiffersAt(a[1..], b[1..], k) { DiffersLater(a, b, k); }
        if k :| DiffersAt(a, b, k) && lt(a[k], b[k]) { assert DiffersAt(a[1..], b[1..], k - 1); }
        if k :| DiffersAt(a[1..], b[1..], k) && lt(a[1..][k], b[1..][k]) { assert DiffersAt(a, b, k + 1); }
      } else {
        assert DiffersAt(a, b, 0);
      }
    }
  }

  ghost predicate DiffersAt<T>(a: seq<T>, b: seq<T>, k: int) {
    0 <= k < |a| && k < |b| && a[..k] == b[..k] && a[k] != b[k]
  }

  lemma DiffersLater<T>(a: seq<T>, b: seq<T>, k: int)
    requires a != [] && b != [] && a[0] == b[0]
    ensures DiffersAt(a, b, k + 1) <==> DiffersAt(a[1..], b[1..], k)
  {
    if 0 <= k < |a| - 1 && k < |b| - 1 {
      assert a[..k + 1] == [a[0]] + a[1..][..k] && b[..k + 1] == [b[0]] + b[1..][..k];
      assert a[..k + 1][1..] == a[1..][..k] && b[..k + 1][1..] == b[1..][..k];
    }
  }

  predicate CharLess(a: char, b: char) {
    a < b
  }

  /** Python's `<` on strings. */
  predicate StringLess(a: string, b: string) {
    Lex(CharLess, a, b)
  }

  lemma StringLessTotal()
    ensures StrictTotal(StringLess)
  {
    forall x: string ensures !StringLess(x, x) { LexIrreflexive(CharLess, x); }
    forall x: string, y: string, z: string | StringLess(x, y) && StringLess(y, z) ensures StringLess(x, z) {
      LexTransitive(CharLess, x, y, z);
    }
    forall x: string, y: string ensures StringLess(x, y) || x == y || StringLess(y, x) {
      LexTotal(CharLess, x, y);
    }
  }

  /** Strings are compared by the code points of their first difference. */
  lemma StringLessMeaning(a: string, b: string)
    ensures StringLess(a, b) <==> a < b || exists k :: DiffersAt(a, b, k) && a[k] as int < b[k] as int
  {
    LexMeaning(CharLess, a, b);
  }

  /** Python's `<` on tuples of strings. */
  predicate IdsLess(a: seq<string>, b: seq<string>) {
    Lex(StringLess, a, b)
  }

  // ----- sorted(s, key=...)

  function InsertSorted<T>(lt: (T, T) -> bool, x: T, s: seq<T>): seq<T> {
    if s == [] || !lt(s[0], x) then [x] + s else [s[0]] + InsertSorted(lt, x, s[1..])
  }

  /** Stable ascending sort: `lt` compares the keys. */
  function Sorted<T>(lt: (T, T) -> bool, s: seq<T>): seq<T> {
    if s == [] then [] else InsertSorted(lt, s[0], Sorted(lt, s[1..]))
  }

  ghost predicate IsSorted<T>(lt: (T, T) -> bool, s: seq<T>) {
    forall i, j :: 0 <= i < j < |s| ==> !lt(s[j], s[i])
  }

  lemma {:induction false} InsertSortedPermutes<T>(lt: (T, T) -> bool, x: T, s: seq<T>)
    ensures multiset(InsertSorted(lt, x, s)) == multiset{x} + multiset(s)
  {
    if s != [] && lt(s[0], x) {
      InsertSortedPermutes(lt, x, s[1..]);
      assert s == [s[0]] + s[1..];
    }
  }

  lemma {:induction false} InsertSortedSorts<T(!new)>(lt: (T, T) -> bool, x: T, s: seq<T>)
    requires StrictWeak(lt) && IsSorted(lt, s)
    ensures IsSorted(lt, InsertSorted(lt, x, s))
  {
    if s != [] && lt(s[0], x) {
      var t := InsertSorted(lt, x, s[1..]);
      InsertSortedSorts(lt, x, s[1..]);
      InsertSortedPermutes(lt, x, s[1..]);
      forall j | 0 <= j < |t| ensures !lt(t[j], s[0]) {
        assert t[j] in multiset(t);
      }
    }
  }

  lemma {:induction false} SortedIsSortedPermutation<T(!new)>(lt: (T, T) -> bool, s: seq<T>)
    requires StrictWeak(lt)
    ensures IsSorted(lt, Sorted(lt, s))
    ensures multiset(Sorted(lt, s)) == multiset(s)
  {
    if s != [] {
      SortedIsSortedPermutation(lt, s[1..]);
      InsertSortedSorts(lt, s[0], Sorted(lt, s[1..]));
      InsertSortedPermutes(lt, s[0], Sorted(lt, s[1..]));
      assert s == [s[0]] + s[1..];
    }
  }

  /** Different elements have different keys. */
  ghost predicate Comparable<T(!new)>(lt: (T, T) -> bool, a: seq<T>) {
    forall x, y :: x in a && y in a && x != y ==> lt(x, y) || lt(y, x)
  }

  lemma SortedHeads<T(!new)>(lt: (T, T) -> bool, a: seq<T>, b: seq<T>)
    requires IsSorted(lt, a) && IsSorted(lt, b) && multiset(a) == multiset(b) && Comparable(lt, a) && a != [] && b != []
    ensures a[0] == b[0]
  {
    assert a[0] in multiset(b) && b[0] in multiset(a);
    var i :| 0 <= i < |b| && b[i] == a[0];
    var j :| 0 <= j < |a| && a[j] == b[0];
  }

  lemma SameLength<T>(a: seq<T>, b: seq<T>)
    requires multiset(a) == multiset(b)
    ensures |a| == |b|
  {
    assert |multiset(a)| == |multiset(b)|;
  }

  lemma SameTails<T>(a: seq<T>, b: seq<T>)
    requires multiset(a) == multiset(b) && a != [] && b != [] && a[0] == b[0]
    ensures multiset(a[1..]) == multiset(b[1..])
  {
    assert a == [a[0]] + a[1..] && b == [b[0]] + b[1..];
    assert multiset(a[1..]) == multiset(a) - multiset{a[0]} && multiset(b[1..]) == multiset(b) - multiset{b[0]};
  }

  lemma SortedTail<T(!new)>(lt: (T, T) -> bool, a: seq<T>)
    requires IsSorted(lt, a) && a != []
    ensures IsSorted(lt, a[1..]) && (Comparable(lt, a) ==> Comparable(lt, a[1..]))
  {
    assert forall x :: x in a[1..] ==> x in a;
  }

  /** Sorted order is canonical once distinct elements have distinct keys. */
  lemma {:induction false} SortedUnique<T(!new)>(lt: (T, T) -> bool, a: seq<T>, b: seq<T>)
    requires IsSorted(lt, a) && IsSorted(lt, b) && multiset(a) == multiset(b) && Comparable(lt, a)
    ensures a == b
  {
    SameLength(a, b);
    if a != [] {
      SortedHeads(lt, a, b);
      SameTails(a, b);
      SortedTail(lt, a);
      SortedTail(lt, b);
      SortedUnique(lt, a[1..], b[1..]);
      assert a == [a[0]] + a[1..] && b == [b[0]] + b[1..];
    }
  }

  lemma {:induction false} SortedMembers<T(!new)>(lt: (T, T) -> bool, s: seq<T>)
    requires StrictWeak(lt)
    ensures |Sorted(lt, s)| == |s|
    ensures forall x :: x in Sorted(lt, s) <==> x in s
  {
    SortedIsSortedPermutation(lt, s);
    assert |multiset(Sorted(lt, s))| == |multiset(s)|;
    forall x ensures x in Sorted(lt, s) <==> x in s {
      assert x in Sorted(lt, s) <==> x in multiset(Sorted(lt, s));
      assert x in s <==> x in multiset(s);
    }
  }

  // ----- sequences without repetition

  ghost predicate Distinct<T>(s: seq<T>) {
    forall i, j :: 0 <= i < j < |s| ==> s[i] != s[j]
  }

  lemma {:induction false} DistinctCount<T>(s: seq<T>, x: T)
    requires Distinct(s)
    ensures multiset(s)[x] <= 1
  {
    if s != [] {
      assert s == [s[0]] + s[1..];
      DistinctCount(s[1..], x);
      assert s[0] !in s[1..];
    }
  }

  /** Rearranging a sequence without repetition creates none. */
  lemma DistinctPermutation<T>(a: seq<T>, b: seq<T>)
    requires Distinct(a) && multiset(a) == multiset(b)
    ensures Distinct(b)
  {
    forall i, j | 0 <= i < j < |b| ensures b[i] != b[j] {
      DistinctCount(a, b[j]);
      assert b == b[..j] + [b[j]] + b[j + 1..] && b[i] in b[..j];
    }
  }
}
