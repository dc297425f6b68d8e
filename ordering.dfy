/** The sort orders of the read-only projections. Dates are compared as
    strings, character by character, as the document store sorts them
    (UTF-8 byte order agrees with code point order). A ranked order sorts by
    an integer rank first and by the string second, which makes it total on
    distinct keys. */
module Ordering {

  /** Lexicographic "less than or equal" on strings. */
  predicate LexLe(a: string, b: string)
    decreases |a|
  {
    |a| == 0 || (|b| > 0 && (a[0] < b[0] || (a[0] == b[0] && LexLe(a[1..], b[1..]))))
  }

  lemma {:induction false} LexLeTotal(a: string, b: string)
    ensures LexLe(a, b) || LexLe(b, a)
    decreases |a|
  {
    if |a| > 0 && |b| > 0 && a[0] == b[0] {
      LexLeTotal(a[1..], b[1..]);
    }
  }

  lemma {:induction false} LexLeAntisymmetric(a: string, b: string)
    requires LexLe(a, b) && LexLe(b, a)
    ensures a == b
    decreases |a|
  {
    if |a| > 0 {
      LexLeAntisymmetric(a[1..], b[1..]);
      assert a == [a[0]] + a[1..] && b == [b[0]] + b[1..];
    }
  }

  lemma {:induction false} LexLeTransitive(a: string, b: string, c: string)
    requires LexLe(a, b) && LexLe(b, c)
    ensures LexLe(a, c)
    decreases |a|
  {
    if |a| > 0 && a[0] == b[0] && b[0] == c[0] {
      LexLeTransitive(a[1..], b[1..], c[1..]);
    }
  }

  /** Order by `rank`, then by the string itself. */
  predicate RankedLe(rank: string -> int, a: string, b: string)
  {
    rank(a) < rank(b) || (rank(a) == rank(b) && LexLe(a, b))
  }

  lemma RankedLeTotal(rank: string -> int, a: string, b: string)
    ensures RankedLe(rank, a, b) || RankedLe(rank, b, a)
  {
    LexLeTotal(a, b);
  }

  lemma RankedLeAntisymmetric(rank: string -> int, a: string, b: string)
    requires RankedLe(rank, a, b) && RankedLe(rank, b, a)
    ensures a == b
  {
    LexLeAntisymmetric(a, b);
  }

  lemma RankedLeTransitive(rank: string -> int, a: string, b: string, c: string)
    requires RankedLe(rank, a, b) && RankedLe(rank, b, c)
    ensures RankedLe(rank, a, c)
  {
    if rank(a) == rank(b) == rank(c) {
      LexLeTransitive(a, b, c);
    }
  }

  /** `m` comes first among `keys`. */
  predicate IsLeast(rank: string -> int, keys: set<string>, m: string)
  {
    m in keys && forall k :: k in keys ==> RankedLe(rank, m, k)
  }

  lemma {:induction false} LeastExists(rank: string -> int, keys: set<string>)
    requires keys != {}
    ensures exists m :: IsLeast(rank, keys, m)
    decreases |keys|
  {
    var x :| x in keys;
    if keys == {x} {
      RankedLeTotal(rank, x, x);
      assert IsLeast(rank, keys, x);
    } else {
      LeastExists(rank, keys - {x});
      var m :| IsLeast(rank, keys - {x}, m);
      RankedLeTotal(rank, m, x);
      if RankedLe(rank, m, x) {
        assert IsLeast(rank, keys, m);
      } else {
        forall k | k in keys
          ensures RankedLe(rank, x, k)
        {
          if k == x {
            RankedLeTotal(rank, x, x);
          } else {
            RankedLeTransitive(rank, x, m, k);
          }
        }
        assert IsLeast(rank, keys, x);
      }
    }
  }

  lemma LeastUnique(rank: string -> int, keys: set<string>)
    ensures forall m, n :: IsLeast(rank, keys, m) && IsLeast(rank, keys, n) ==> m == n
  {
    forall m, n | IsLeast(rank, keys, m) && IsLeast(rank, keys, n)
      ensures m == n
    {
      RankedLeAntisymmetric(rank, m, n);
    }
  }

  /** `keys` in ascending ranked order, by repeated choice of the least key. */
  function SortedBy(rank: string -> int, keys: set<string>): (r: seq<string>)
    ensures |r| == |keys|
    decreases |keys|
  {
    if keys == {} then
      []
    else
      LeastExists(rank, keys);
      LeastUnique(rank, keys);
      var m :| IsLeast(rank, keys, m);
      [m] + SortedBy(rank, keys - {m})
  }

  /** The sorted list holds exactly the given keys. */
  lemma {:induction false} SortedByMembers(rank: string -> int, keys: set<string>)
    ensures forall k :: k in SortedBy(rank, keys) <==> k in keys
    decreases |keys|
  {
    if keys != {} {
      LeastExists(rank, keys);
      LeastUnique(rank, keys);
      var m :| IsLeast(rank, keys, m);
      assert SortedBy(rank, keys) == [m] + SortedBy(rank, keys - {m});
      SortedByMembers(rank, keys - {m});
    }
  }

  /** The sorted list is strictly ascending in the ranked order. */
  lemma {:induction false} SortedByAscending(rank: string -> int, keys: set<string>, i: int, j: int)
    requires 0 <= i < j < |SortedBy(rank, keys)|
    ensures RankedLe(rank, SortedBy(rank, keys)[i], SortedBy(rank, keys)[j])
    ensures SortedBy(rank, keys)[i] != SortedBy(rank, keys)[j]
    decreases |keys|
  {
    LeastExists(rank, keys);
    LeastUnique(rank, keys);
    var m :| IsLeast(rank, keys, m);
    var rest := SortedBy(rank, keys - {m});
    var r := SortedBy(rank, keys);
    assert r == [m] + rest;
    assert r[j] == rest[j - 1];
    if i == 0 {
      SortedByMembers(rank, keys - {m});
      assert rest[j - 1] in rest;
      assert rest[j - 1] in keys - {m};
    } else {
      assert r[i] == rest[i - 1];
      SortedByAscending(rank, keys - {m}, i - 1, j - 1);
    }
  }

  /** A key that does not occur among the first `i + 1` sorted keys ranks
      after the `i`-th. */
  lemma LaterKeyRanksHigher(rank: string -> int, keys: set<string>, d: string, i: int)
    requires d in keys
    requires 0 <= i < |SortedBy(rank, keys)|
    requires forall k :: 0 <= k <= i ==> SortedBy(rank, keys)[k] != d
    ensures RankedLe(rank, SortedBy(rank, keys)[i], d)
  {
    var all := SortedBy(rank, keys);
    SortedByMembers(rank, keys);
    var j :| 0 <= j < |all| && all[j] == d;
    SortedByAscending(rank, keys, i, j);
  }
}
