/** Sorting records oldest first, identifiers breaking ties by their octets (the order
    `export_state` and `list_keys` share in src/plugins/fido2_sign.rs). */
module Sorting {
  import opened Bytes
  import opened Keys
  import Utf8
  import opened Cbor

  datatype SortKey = SortKey(createdAt: int, kid: Kid)

  predicate Before(a: SortKey, b: SortKey) {
    a.createdAt < b.createdAt || (a.createdAt == b.createdAt && LexBefore(Utf8.Encode(a.kid), Utf8.Encode(b.kid)))
  }

  lemma {:induction false} LexTransitive(a: bytes, b: bytes, c: bytes)
    requires LexBefore(a, b) && LexBefore(b, c)
    ensures LexBefore(a, c)
  {
    if a != [] && b != [] && c != [] && a[0] == b[0] == c[0] {
      LexTransitive(a[1..], b[1..], c[1..]);
    }
  }

  lemma {:induction false} LexTrichotomy(a: bytes, b: bytes)
    ensures LexBefore(a, b) || a == b || LexBefore(b, a)
    ensures !(LexBefore(a, b) && LexBefore(b, a))
    ensures a == b ==> !LexBefore(a, b)
  {
    if a != [] && b != [] {
      LexTrichotomy(a[1..], b[1..]);
      assert a == [a[0]] + a[1..] && b == [b[0]] + b[1..];
    }
  }

  lemma BeforeTransitive(a: SortKey, b: SortKey, c: SortKey)
    requires Before(a, b) && Before(b, c)
    ensures Before(a, c)
  {
    hide LexBefore, Utf8.Encode;
    if a.createdAt == c.createdAt {
      LexTransitive(Utf8.Encode(a.kid), Utf8.Encode(b.kid), Utf8.Encode(c.kid));
    }
  }

  /** A strict total order: different keys are always ordered one way. */
  lemma BeforeTrichotomy(a: SortKey, b: SortKey)
    ensures Before(a, b) || a == b || Before(b, a)
    ensures !(Before(a, b) && Before(b, a))
    ensures !Before(a, a)
  {
    hide LexBefore, Utf8.Encode;
    LexTrichotomy(Utf8.Encode(a.kid), Utf8.Encode(b.kid));
    LexTrichotomy(Utf8.Encode(a.kid), Utf8.Encode(a.kid));
    Utf8.RoundTrip(a.kid);
    Utf8.RoundTrip(b.kid);
  }

  /** A stable sort: an element goes after those that are not greater. */
  function Insert<T>(key: T -> SortKey, x: T, s: seq<T>): seq<T> {
    if s == [] then [x]
    else if Before(key(x), key(s[0])) then [x] + s
    else [s[0]] + Insert(key, x, s[1..])
  }

  function Sort<T>(key: T -> SortKey, s: seq<T>): seq<T> {
    if s == [] then [] else Insert(key, s[|s| - 1], Sort(key, s[..|s| - 1]))
  }

  predicate Ascending<T>(key: T -> SortKey, s: seq<T>) {
    forall i, j | 0 <= i < j < |s| :: Before(key(s[i]), key(s[j]))
  }

  predicate DistinctKeys<T>(key: T -> SortKey, s: seq<T>) {
    forall i, j | 0 <= i < j < |s| :: key(s[i]) != key(s[j])
  }

  lemma Position<T>(s: seq<T>, x: T) returns (i: nat)
    requires x in s
    ensures i < |s| && s[i] == x
  {
    i :| i < |s| && s[i] == x;
  }

  lemma {:induction false} InsertHolds<T(!new)>(key: T -> SortKey, x: T, s: seq<T>)
    ensures |Insert(key, x, s)| == |s| + 1
    ensures forall y :: y in Insert(key, x, s) <==> y == x || y in s
  {
    if s != [] {
      InsertHolds(key, x, s[1..]);
      assert s == [s[0]] + s[1..];
    }
  }

  lemma {:induction false} InsertAscends<T(!new)>(key: T -> SortKey, x: T, s: seq<T>)
    requires Ascending(key, s) && forall y | y in s :: key(y) != key(x)
    ensures Ascending(key, Insert(key, x, s))
  {
    hide Before;
    if s != [] {
      var r := Insert(key, x, s);
      BeforeTrichotomy(key(x), key(s[0]));
      if Before(key(x), key(s[0])) {
        forall j | 1 <= j < |s| ensures Before(key(x), key(s[j])) {
          BeforeTransitive(key(x), key(s[0]), key(s[j]));
        }
      } else {
        InsertAscends(key, x, s[1..]);
        InsertHolds(key, x, s[1..]);
        var tail := Insert(key, x, s[1..]);
        assert s[0] in s;
        forall j | 0 <= j < |tail| ensures Before(key(s[0]), key(tail[j])) {
          assert tail[j] in tail;
          if tail[j] != x {
            var i := Position(s[1..], tail[j]);
            assert s[i + 1] == tail[j];
          }
        }
      }
    }
  }

  lemma {:induction false} SortHolds<T(!new)>(key: T -> SortKey, s: seq<T>)
    ensures |Sort(key, s)| == |s|
    ensures forall y :: y in Sort(key, s) <==> y in s
  {
    if s != [] {
      var n := |s| - 1;
      SortHolds(key, s[..n]);
      InsertHolds(key, s[n], Sort(key, s[..n]));
      assert s == s[..n] + [s[n]];
    }
  }

  lemma {:induction false} SortAscends<T(!new)>(key: T -> SortKey, s: seq<T>)
    requires DistinctKeys(key, s)
    ensures Ascending(key, Sort(key, s))
  {
    hide Before;
    if s != [] {
      var n := |s| - 1;
      SortAscends(key, s[..n]);
      SortHolds(key, s[..n]);
      forall y | y in Sort(key, s[..n]) ensures key(y) != key(s[n]) {
        var i := Position(s[..n], y);
        assert s[i] == y;
      }
      InsertAscends(key, s[n], Sort(key, s[..n]));
    }
  }

  lemma HeadStandsAlone<T(!new)>(key: T -> SortKey, s: seq<T>)
    requires s != [] && Ascending(key, s)
    ensures s[0] !in s[1..]
  {
    hide Before;
    BeforeTrichotomy(key(s[0]), key(s[0]));
    assert forall i | 0 <= i < |s[1..]| :: Before(key(s[0]), key(s[1..][i]));
  }

  /** Only one arrangement of the same elements is strictly ascending. */
  lemma {:induction false} AscendingIsUnique<T(!new)>(key: T -> SortKey, s: seq<T>, t: seq<T>)
    requires Ascending(key, s) && Ascending(key, t)
    requires forall y :: y in s <==> y in t
    ensures s == t
  {
    hide Before;
    assert s != [] ==> s[0] in t;
    assert t != [] ==> t[0] in s;
    if s != [] {
      assert s[0] in t && t[0] in s;
      BeforeTrichotomy(key(s[0]), key(t[0]));
      BeforeTrichotomy(key(s[0]), key(s[0]));
      assert s[0] == t[0];
      assert s == [s[0]] + s[1..] && t == [t[0]] + t[1..];
      HeadStandsAlone(key, s);
      HeadStandsAlone(key, t);
      forall y ensures y in s[1..] <==> y in t[1..] {
        assert y in s <==> y == s[0] || y in s[1..];
        assert y in t <==> y == t[0] || y in t[1..];
      }
      AscendingIsUnique(key, s[1..], t[1..]);
    }
  }

  function MapSeq<T, U>(f: T -> U, s: seq<T>): (r: seq<U>)
    ensures |r| == |s| && forall i | 0 <= i < |s| :: r[i] == f(s[i])
  {
    seq(|s|, i requires 0 <= i < |s| => f(s[i]))
  }

  /** Summaries sort as their records do. */
  lemma {:induction false} InsertOfSummaries<T(!new), U>(key: T -> SortKey, key': U -> SortKey, f: T -> U, x: T, s: seq<T>)
    requires forall y :: key'(f(y)) == key(y)
    ensures Insert(key', f(x), MapSeq(f, s)) == MapSeq(f, Insert(key, x, s))
  {
    hide Before;
    if s != [] {
      InsertOfSummaries(key, key', f, x, s[1..]);
      assert MapSeq(f, s)[1..] == MapSeq(f, s[1..]);
    }
  }

  lemma {:induction false} SortOfSummaries<T(!new), U>(key: T -> SortKey, key': U -> SortKey, f: T -> U, s: seq<T>)
    requires forall y :: key'(f(y)) == key(y)
    ensures Sort(key', MapSeq(f, s)) == MapSeq(f, Sort(key, s))
  {
    if s != [] {
      var n := |s| - 1;
      SortOfSummaries(key, key', f, s[..n]);
      assert MapSeq(f, s)[..n] == MapSeq(f, s[..n]);
      InsertOfSummaries(key, key', f, s[n], Sort(key, s[..n]));
    }
  }
}
