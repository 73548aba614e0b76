/** Strict orders, and the sorting the Go standard library provides.

  `sort.Strings` and `sort.Slice` are library code: they are modelled by one
  function, and the only thing the rest of the project relies on is what this
  module proves about it. A strictly ordered set of elements has exactly one
  ascending enumeration, which is why iterating a map in any order and then
  sorting gives one answer.
  */
module Sorting {

  /** `less` orders the elements of `s` strictly and totally. */
  ghost predicate StrictOrderOn<T(!new)>(less: (T, T) -> bool, s: set<T>) {
    && (forall x | x in s :: !less(x, x))
    && (forall x, y, z | x in s && y in s && z in s && less(x, y) && less(y, z) :: less(x, z))
    && (forall x, y | x in s && y in s && x != y :: less(x, y) || less(y, x))
  }

  ghost predicate Ascending<T(!new)>(less: (T, T) -> bool, s: seq<T>) {
    forall i, j | 0 <= i < j < |s| :: less(s[i], s[j])
  }

  ghost predicate Distinct<T(!new)>(s: seq<T>) {
    forall i, j | 0 <= i < j < |s| :: s[i] != s[j]
  }

  ghost function Elements<T(!new)>(s: seq<T>): set<T> {
    set x | x in s
  }

  function Insert<T>(less: (T, T) -> bool, x: T, s: seq<T>): seq<T> {
    if s == [] then [x]
    else if less(s[0], x) then [s[0]] + Insert(less, x, s[1..])
    else [x] + s
  }

  function Sort<T>(less: (T, T) -> bool, s: seq<T>): seq<T> {
    if s == [] then [] else Insert(less, s[0], Sort(less, s[1..]))
  }

  lemma {:induction false} InsertKeepsElements<T(!new)>(less: (T, T) -> bool, x: T, s: seq<T>)
    ensures Elements(Insert(less, x, s)) == Elements(s) + {x}
    ensures |Insert(less, x, s)| == |s| + 1
  {
    if s != [] {
      assert s == [s[0]] + s[1..];
      if less(s[0], x) {
        InsertKeepsElements(less, x, s[1..]);
        assert Elements(s) == {s[0]} + Elements(s[1..]);
        assert Elements(Insert(less, x, s)) == {s[0]} + Elements(Insert(less, x, s[1..]));
      }
    }
  }

  lemma {:induction false} InsertAscends<T(!new)>(less: (T, T) -> bool, x: T, s: seq<T>)
    requires StrictOrderOn(less, Elements(s) + {x})
    requires Ascending(less, s) && x !in s
    ensures Ascending(less, Insert(less, x, s))
  {
    if s != [] {
      assert s == [s[0]] + s[1..];
      if less(s[0], x) {
        InsertAscends(less, x, s[1..]);
        var rest := Insert(less, x, s[1..]);
        InsertKeepsElements(less, x, s[1..]);
        forall j | 0 <= j < |rest| ensures less(s[0], rest[j]) {
          assert rest[j] in Elements(rest);
        }
      } else {
        assert less(x, s[0]) by { assert s[0] in Elements(s); }
        forall j | 0 <= j < |s| ensures less(x, s[j]) {
          assert s[j] in Elements(s);
          if j > 0 { assert less(s[0], s[j]); }
        }
      }
    }
  }

  /** Sorting distinct elements enumerates the same set in ascending order. */
  lemma {:induction false} SortEnumerates<T(!new)>(less: (T, T) -> bool, s: seq<T>)
    requires StrictOrderOn(less, Elements(s)) && Distinct(s)
    ensures Ascending(less, Sort(less, s))
    ensures Elements(Sort(less, s)) == Elements(s)
    ensures |Sort(less, s)| == |s|
  {
    if s != [] {
      assert s == [s[0]] + s[1..];
      assert Elements(s) == Elements(s[1..]) + {s[0]};
      SortEnumerates(less, s[1..]);
      InsertKeepsElements(less, s[0], Sort(less, s[1..]));
      assert s[0] !in Sort(less, s[1..]) by {
        assert s[0] !in Elements(Sort(less, s[1..]));
      }
      InsertAscends(less, s[0], Sort(less, s[1..]));
    }
  }

  /** A set has at most one ascending enumeration. */
  lemma {:induction false} AscendingIsUnique<T(!new)>(less: (T, T) -> bool, a: seq<T>, b: seq<T>)
    requires Elements(a) == Elements(b) && StrictOrderOn(less, Elements(a))
    requires Ascending(less, a) && Ascending(less, b)
    ensures a == b
  {
    FirstIsLeast(less, a);
    FirstIsLeast(less, b);
    if a != [] {
      assert a[0] in Elements(b);
      assert a[0] == b[0];
      assert Elements(a[1..]) == Elements(a) - {a[0]} by { TailElements(less, a); }
      assert Elements(b[1..]) == Elements(b) - {b[0]} by { TailElements(less, b); }
      AscendingIsUnique(less, a[1..], b[1..]);
      assert a == [a[0]] + a[1..] && b == [b[0]] + b[1..];
    }
  }

  lemma FirstIsLeast<T(!new)>(less: (T, T) -> bool, a: seq<T>)
    requires Ascending(less, a)
    ensures a != [] ==> a[0] in Elements(a)
    ensures forall x | x in Elements(a) :: a != [] && (x == a[0] || less(a[0], x))
  {
  }

  lemma TailElements<T(!new)>(less: (T, T) -> bool, a: seq<T>)
    requires a != [] && StrictOrderOn(less, Elements(a)) && Ascending(less, a)
    ensures Elements(a[1..]) == Elements(a) - {a[0]}
  {
    assert a == [a[0]] + a[1..];
    forall x | x in a[1..] ensures x != a[0] {
      var k :| 0 <= k < |a| - 1 && a[1..][k] == x;
      assert less(a[0], a[k + 1]);
      assert a[0] in Elements(a);
    }
  }

  // ---------------------------------------------------------------------
  // Byte strings
  // ---------------------------------------------------------------------

  /** The order Go compares strings in. Each char stands for one byte. */
  predicate Before(a: string, b: string) {
    b != [] && (a == [] || a[0] < b[0] || (a[0] == b[0] && Before(a[1..], b[1..])))
  }

  /** It goes by the first byte in which two strings differ; a string comes
      before what it is the beginning of. */
  lemma {:induction false} BeforeMeans(a: string, b: string)
    ensures Before(a, b) <==> (a < b || exists n :: DifferFirstAt(a, b, n) && a[n] < b[n])
  {
    if a != [] && b != [] && a[0] == b[0] {
      BeforeMeans(a[1..], b[1..]);
      assert a < b <==> a[1..] < b[1..] by { PrefixesGrow(a, b); }
      forall n | DifferFirstAt(a, b, n) ensures DifferFirstAt(a[1..], b[1..], n - 1) {
        assert n > 0 && a[..n][1..] == b[..n][1..];
        assert a[1..][..n - 1] == a[..n][1..] && b[1..][..n - 1] == b[..n][1..];
      }
      forall n | DifferFirstAt(a[1..], b[1..], n) ensures DifferFirstAt(a, b, n + 1) {
        assert a[..n + 1] == [a[0]] + a[1..][..n] && b[..n + 1] == [b[0]] + b[1..][..n];
      }
    } else if a != [] && b != [] {
      assert DifferFirstAt(a, b, 0);
    }
  }

  ghost predicate DifferFirstAt(a: string, b: string, n: int) {
    0 <= n < |a| && n < |b| && a[..n] == b[..n] && a[n] != b[n]
  }

  lemma PrefixesGrow(a: string, b: string)
    requires a != [] && b != [] && a[0] == b[0]
    ensures a < b <==> a[1..] < b[1..]
  {
    assert a == [a[0]] + a[1..] && b == [b[0]] + b[1..];
  }

  lemma {:induction false} BeforeIsIrreflexive(a: string)
    ensures !Before(a, a)
  {
    if a != [] { BeforeIsIrreflexive(a[1..]); }
  }

  lemma {:induction false} BeforeIsTransitive(a: string, b: string, c: string)
    requires Before(a, b) && Before(b, c)
    ensures Before(a, c)
  {
    if a != [] && a[0] == b[0] && b[0] == c[0] {
      BeforeIsTransitive(a[1..], b[1..], c[1..]);
    }
  }

  lemma {:induction false} BeforeIsTotal(a: string, b: string)
    requires a != b
    ensures Before(a, b) || Before(b, a)
  {
    if a != [] && b != [] && a[0] == b[0] {
      assert a == [a[0]] + a[1..] && b == [b[0]] + b[1..];
      BeforeIsTotal(a[1..], b[1..]);
    }
  }

  lemma BeforeOrders(s: set<string>)
    ensures StrictOrderOn(Before, s)
  {
    forall x | x in s ensures !Before(x, x) { BeforeIsIrreflexive(x); }
    forall x, y, z | x in s && y in s && z in s && Before(x, y) && Before(y, z) ensures Before(x, z) {
      BeforeIsTransitive(x, y, z);
    }
    forall x, y | x in s && y in s && x != y ensures Before(x, y) || Before(y, x) {
      BeforeIsTotal(x, y);
    }
  }

  /** The one ascending enumeration of a set of strings. */
  ghost function InOrder(s: set<string>): (names: seq<string>)
    ensures Ascending(Before, names) && Elements(names) == s
  {
    InOrderExists(s);
    var names: seq<string> :| Ascending(Before, names) && Elements(names) == s;
    names
  }

  lemma {:induction false} InOrderExists(s: set<string>)
    ensures exists names: seq<string> :: Ascending(Before, names) && Elements(names) == s
  {
    if s == {} {
      assert Ascending(Before, []) && Elements<string>([]) == s;
    } else {
      var x :| x in s;
      InOrderExists(s - {x});
      var rest: seq<string> :| Ascending(Before, rest) && Elements(rest) == s - {x};
      BeforeOrders(s);
      assert Elements(rest) + {x} == s;
      assert x !in rest by { assert x !in Elements(rest); }
      InsertAscends(Before, x, rest);
      InsertKeepsElements(Before, x, rest);
    }
  }

  /** Enumerating a set in any order and sorting gives its one ascending enumeration. */
  lemma SortedEnumeration(names: seq<string>)
    requires Distinct(names)
    ensures Sort(Before, names) == InOrder(Elements(names))
  {
    BeforeOrders(Elements(names));
    SortEnumerates(Before, names);
    AscendingIsUnique(Before, Sort(Before, names), InOrder(Elements(names)));
  }
}
