/**
 Go's string order and the two standard-library sorts the controllers rely on.

 `sort.SliceStable` is specified by `SortBy`: a permutation, ordered by the comparison, and
 stable. `UniqueStableSort` says that these three facts leave no freedom at all.
 */
module Ordering {

  /** Go's `<` on strings: lexicographic. */
  predicate Less(a: string, b: string)
  {
    b != [] && (a == [] || a[0] < b[0] || (a[0] == b[0] && Less(a[1..], b[1..])))
  }

  lemma {:induction false} LessIrreflexive(a: string)
    ensures !Less(a, a)
  {
    if a != [] {
      LessIrreflexive(a[1..]);
    }
  }

  lemma {:induction false} LessTransitive(a: string, b: string, c: string)
    requires Less(a, b) && Less(b, c)
    ensures Less(a, c)
  {
    if a != [] && a[0] == b[0] && b[0] == c[0] {
      LessTransitive(a[1..], b[1..], c[1..]);
    }
  }

  lemma {:induction false} LessTotal(a: string, b: string)
    ensures a == b || Less(a, b) || Less(b, a)
  {
    if a != [] && b != [] && a[0] == b[0] {
      LessTotal(a[1..], b[1..]);
      assert a == [a[0]] + a[1..] && b == [b[0]] + b[1..];
    }
  }

  /** One string is below another exactly if it is cut short, or smaller, where the two first part. */
  lemma {:induction false} LessExact(a: string, b: string)
    ensures Less(a, b)
       <==> exists k | 0 <= k <= |a| && k < |b| && a[..k] == b[..k] :: k == |a| || a[k] < b[k]
  {
    if a != [] && b != [] && a[0] == b[0] {
      var a', b' := a[1..], b[1..];
      LessExact(a', b');
      if Less(a', b') {
        var k :| 0 <= k <= |a'| && k < |b'| && a'[..k] == b'[..k] && (k == |a'| || a'[k] < b'[k]);
        assert a[..k + 1] == [a[0]] + a'[..k] && b[..k + 1] == [b[0]] + b'[..k];
      }
      if k :| 0 <= k <= |a| && k < |b| && a[..k] == b[..k] && (k == |a| || a[k] < b[k]) {
        if k > 0 {
          assert a'[..k - 1] == a[..k][1..] && b'[..k - 1] == b[..k][1..];
        }
      }
    } else if a != [] && b != [] {
      assert a[..0] == b[..0];
      forall k | 0 < k <= |a| && k < |b| ensures a[..k] != b[..k] {
        assert a[..k][0] != b[..k][0];
      }
    } else if b != [] {
      assert a[..0] == b[..0];
    }
  }

  /** A comparison a Go sort may be given. */
  ghost predicate StrictWeakOrder<T(!new)>(lt: (T, T) -> bool)
  {
    && (forall x :: !lt(x, x))
    && (forall x, y, z :: lt(x, y) && lt(y, z) ==> lt(x, z))
    && (forall x, y, z :: lt(x, z) ==> lt(x, y) || lt(y, z))
  }

  ghost predicate Tied<T>(lt: (T, T) -> bool, x: T, y: T)
  {
    !lt(x, y) && !lt(y, x)
  }

  ghost predicate Sorted<T>(lt: (T, T) -> bool, s: seq<T>)
  {
    forall i, j | 0 <= i < j < |s| :: !lt(s[j], s[i])
  }

  /** The elements of `s` that tie with `x`, in order. */
  ghost function TiedWith<T>(lt: (T, T) -> bool, s: seq<T>, x: T): seq<T>
  {
    if s == [] then []
    else (if Tied(lt, s[0], x) then [s[0]] else []) + TiedWith(lt, s[1..], x)
  }

  function Insert<T>(lt: (T, T) -> bool, x: T, s: seq<T>): seq<T>
  {
    if s == [] || !lt(s[0], x) then [x] + s else [s[0]] + Insert(lt, x, s[1..])
  }

  /** A stable sort. */
  function SortBy<T>(lt: (T, T) -> bool, s: seq<T>): seq<T>
  {
    if s == [] then [] else Insert(lt, s[0], SortBy(lt, s[1..]))
  }

  lemma {:induction false} InsertPermutes<T>(lt: (T, T) -> bool, x: T, s: seq<T>)
    ensures multiset(Insert(lt, x, s)) == multiset{x} + multiset(s)
  {
    if s != [] && lt(s[0], x) {
      InsertPermutes(lt, x, s[1..]);
      assert s == [s[0]] + s[1..];
    }
  }

  lemma {:induction false} InsertSorted<T(!new)>(lt: (T, T) -> bool, x: T, s: seq<T>)
    requires StrictWeakOrder(lt) && Sorted(lt, s)
    ensures Sorted(lt, Insert(lt, x, s))
  {
    if s == [] || !lt(s[0], x) {
      forall j | 0 <= j < |s| ensures !lt(s[j], x) {
        assert lt(s[j], s[0]) || lt(s[0], x) || !lt(s[j], x);
      }
    } else {
      var t := Insert(lt, x, s[1..]);
      InsertSorted(lt, x, s[1..]);
      forall j | 0 <= j < |t| ensures !lt(t[j], s[0]) {
        InsertPermutes(lt, x, s[1..]);
        assert t[j] in multiset(t);
      }
    }
  }

  lemma {:induction false} InsertStable<T(!new)>(lt: (T, T) -> bool, x: T, s: seq<T>, y: T)
    requires StrictWeakOrder(lt)
    ensures TiedWith(lt, Insert(lt, x, s), y)
         == (if Tied(lt, x, y) then [x] else []) + TiedWith(lt, s, y)
  {
    var r := Insert(lt, x, s);
    if s == [] || !lt(s[0], x) {
      assert r[1..] == s;
    } else {
      InsertStable(lt, x, s[1..], y);
      assert r[1..] == Insert(lt, x, s[1..]);
      if Tied(lt, x, y) {
        assert lt(s[0], y) || lt(y, x);
      }
    }
  }

  lemma {:induction false} SortFacts<T(!new)>(lt: (T, T) -> bool, s: seq<T>)
    requires StrictWeakOrder(lt)
    ensures Sorted(lt, SortBy(lt, s))
    ensures multiset(SortBy(lt, s)) == multiset(s)
    ensures forall y :: TiedWith(lt, SortBy(lt, s), y) == TiedWith(lt, s, y)
  {
    if s != [] {
      SortFacts(lt, s[1..]);
      InsertSorted(lt, s[0], SortBy(lt, s[1..]));
      InsertPermutes(lt, s[0], SortBy(lt, s[1..]));
      forall y ensures TiedWith(lt, SortBy(lt, s), y) == TiedWith(lt, s, y) {
        InsertStable(lt, s[0], SortBy(lt, s[1..]), y);
      }
      assert s == [s[0]] + s[1..];
    }
  }

  lemma {:induction false} TiedWithMembers<T(!new)>(lt: (T, T) -> bool, s: seq<T>, y: T)
    ensures forall z :: z in TiedWith(lt, s, y) <==> z in s && Tied(lt, z, y)
  {
    if s != [] {
      TiedWithMembers(lt, s[1..], y);
      assert s == [s[0]] + s[1..];
    }
  }

  /** Two sorted lists that agree on every group of tied elements are equal. */
  lemma {:induction false} UniqueStableSort<T(!new)>(lt: (T, T) -> bool, s: seq<T>, t: seq<T>)
    requires StrictWeakOrder(lt) && Sorted(lt, s) && Sorted(lt, t) && |s| == |t|
    requires forall y :: TiedWith(lt, s, y) == TiedWith(lt, t, y)
    ensures s == t
  {
    if s != [] {
      TiedWithMembers(lt, s, s[0]);
      TiedWithMembers(lt, t, s[0]);
      assert s[0] in TiedWith(lt, t, s[0]);
      TiedWithMembers(lt, s, t[0]);
      TiedWithMembers(lt, t, t[0]);
      assert t[0] in TiedWith(lt, s, t[0]);
      assert Tied(lt, t[0], s[0]);
      assert TiedWith(lt, s, s[0])[0] == s[0];
      assert TiedWith(lt, t, s[0])[0] == t[0];
      forall y ensures TiedWith(lt, s[1..], y) == TiedWith(lt, t[1..], y) {
        var h := if Tied(lt, s[0], y) then [s[0]] else [];
        assert TiedWith(lt, s, y) == h + TiedWith(lt, s[1..], y);
        assert TiedWith(lt, t, y) == h + TiedWith(lt, t[1..], y);
        assert TiedWith(lt, s, y)[|h|..] == TiedWith(lt, s[1..], y);
        assert TiedWith(lt, t, y)[|h|..] == TiedWith(lt, t[1..], y);
      }
      UniqueStableSort(lt, s[1..], t[1..]);
      assert s == [s[0]] + s[1..] && t == [t[0]] + t[1..];
    }
  }
}
