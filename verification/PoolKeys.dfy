/** Idempotency keys of the payout transfers. */
module PoolKeys {
  import opened Collections
  import Text

  /** Row ids are UUID text; all that matters here is that they hold no comma. */
  type Id = s: string | Text.Free(s, ',') witness ""

  /** Code-unit order on strings, the order of JavaScript's Array.sort(). */
  predicate Before(a: string, b: string)
  {
    a == "" || (b != "" && (a[0] < b[0] || (a[0] == b[0] && Before(a[1..], b[1..]))))
  }

  lemma {:induction false} BeforeTotal(a: string, b: string)
    ensures Before(a, b) || Before(b, a)
    ensures Before(a, b) && Before(b, a) ==> a == b
  {
    if a != "" && b != "" {
      BeforeTotal(a[1..], b[1..]);
      assert a == [a[0]] + a[1..] && b == [b[0]] + b[1..];
    }
  }

  lemma {:induction false} BeforeTransitive(a: string, b: string, c: string)
    requires Before(a, b) && Before(b, c)
    ensures Before(a, c)
  {
    if a != "" && a[0] == b[0] == c[0] {
      BeforeTransitive(a[1..], b[1..], c[1..]);
    }
  }

  ghost predicate Sorted(s: seq<string>)
  {
    forall i, j :: 0 <= i < j < |s| ==> Before(s[i], s[j])
  }

  function Insert(x: Id, s: seq<Id>): (r: seq<Id>)
    ensures |r| == |s| + 1
  {
    if s == [] || Before(x, s[0]) then [x] + s else [s[0]] + Insert(x, s[1..])
  }

  function Sort(s: seq<Id>): (r: seq<Id>)
    ensures |r| == |s|
  {
    if s == [] then [] else Insert(s[0], Sort(s[1..]))
  }

  lemma {:induction false} InsertElems(x: Id, s: seq<Id>)
    ensures Elems(Insert(x, s)) == Elems(s) + {x}
    ensures NoDup(s) && x !in s ==> NoDup(Insert(x, s))
  {
    if s == [] || Before(x, s[0]) {
      assert Elems([x] + s) == {x} + Elems(s);
    } else {
      var rest := Insert(x, s[1..]);
      InsertElems(x, s[1..]);
      assert Elems(s) == {s[0]} + Elems(s[1..]);
      assert Elems([s[0]] + rest) == {s[0]} + Elems(rest);
      if NoDup(s) && x !in s {
        assert s[0] !in Elems(rest);
        assert forall j :: 0 <= j < |rest| ==> rest[j] in Elems(rest);
      }
    }
  }

  lemma {:induction false} InsertSorts(x: Id, s: seq<Id>)
    requires Sorted(s)
    ensures Sorted(Insert(x, s))
  {
    if s == [] {
    } else if Before(x, s[0]) {
      forall j | 0 <= j < |s| ensures Before(x, s[j]) {
        if j > 0 { BeforeTransitive(x, s[0], s[j]); }
      }
    } else {
      BeforeTotal(x, s[0]);
      InsertSorts(x, s[1..]);
      InsertElems(x, s[1..]);
      forall j | 0 <= j < |s| ensures Before(s[0], Insert(x, s[1..])[j]) {
        assert Insert(x, s[1..])[j] in Elems(Insert(x, s[1..]));
      }
    }
  }

  /** Sort puts exactly the given ids in order. */
  lemma {:induction false} SortSorts(s: seq<Id>)
    ensures Sorted(Sort(s)) && Elems(Sort(s)) == Elems(s)
    ensures NoDup(s) ==> NoDup(Sort(s))
  {
    if s == [] {
    } else {
      SortSorts(s[1..]);
      InsertSorts(s[0], Sort(s[1..]));
      InsertElems(s[0], Sort(s[1..]));
      assert Elems(s) == {s[0]} + Elems(s[1..]);
      assert NoDup(s) ==> s[0] !in Elems(s[1..]);
    }
  }

  /** A set of ids has only one sorted listing. */
  lemma {:induction false} SortedUnique(a: seq<Id>, b: seq<Id>)
    requires Sorted(a) && Sorted(b) && NoDup(a) && NoDup(b) && Elems(a) == Elems(b)
    ensures a == b
  {
    if a == [] {
    } else {
      assert a[0] in Elems(b) && a != [];
      assert b != [] && b[0] in Elems(a);
      BeforeTotal(a[0], b[0]);
      assert a[0] == b[0];
      assert Elems(a[1..]) == Elems(a) - {a[0]};
      assert Elems(b[1..]) == Elems(b) - {b[0]};
      SortedUnique(a[1..], b[1..]);
      assert a == [a[0]] + a[1..] && b == [b[0]] + b[1..];
    }
  }

  /** The key the payout action builds from the rows of a pool, in whatever order the query returned them. */
  function KeyOfRows(rows: seq<Id>): string
  {
    "pool:" + Text.Join(Sort(rows), ',')
  }

  /** The key of a set of rewards: that of any listing of it. */
  ghost function PoolKey(pool: set<Id>): string
  {
    ListingExistsNow(pool);
    var rows: seq<Id> :| NoDup(rows) && Elems(rows) == pool;
    KeyOfRows(rows)
  }

  lemma ListingExistsNow(pool: set<Id>)
    ensures exists rows: seq<Id> :: NoDup(rows) && Elems(rows) == pool
  {
    var rows := ListingExists(pool);
  }

  function SplitKey(split: Id): (k: string)
    ensures |k| == 6 + |split| && k[6..] == split
  {
    "split:" + split
  }

  /** Two pools get the same key exactly when they hold the same rewards, in whatever order these were listed. */
  lemma KeyCanonical(a: seq<Id>, b: seq<Id>)
    requires NoDup(a) && NoDup(b) && a != [] && b != []
    ensures KeyOfRows(a) == KeyOfRows(b) <==> Elems(a) == Elems(b)
  {
    SortSorts(a);
    SortSorts(b);
    if Elems(a) == Elems(b) {
      SortedUnique(Sort(a), Sort(b));
    }
    if KeyOfRows(a) == KeyOfRows(b) {
      var s, t := Text.Join(Sort(a), ','), Text.Join(Sort(b), ',');
      assert s == KeyOfRows(a)[5..] && t == KeyOfRows(b)[5..];
      Text.JoinInjective(Sort(a), Sort(b), ',');
    }
  }

  lemma KeyOfListing(rows: seq<Id>)
    requires NoDup(rows) && rows != []
    ensures KeyOfRows(rows) == PoolKey(Elems(rows))
  {
    ListingExistsNow(Elems(rows));
    var l: seq<Id> :| NoDup(l) && Elems(l) == Elems(rows) && PoolKey(Elems(rows)) == KeyOfRows(l);
    assert rows[0] in Elems(l);
    KeyCanonical(rows, l);
  }

  /** The same on sets of rewards. */
  lemma PoolKeyInjective(a: set<Id>, b: set<Id>)
    requires a != {} && b != {}
    ensures PoolKey(a) == PoolKey(b) <==> a == b
  {
    var x := ListingExists(a);
    var y := ListingExists(b);
    assert x != [] && y != [];
    KeyOfListing(x);
    KeyOfListing(y);
    KeyCanonical(x, y);
  }

  /** No pool key is a split key, and split keys tell the splits apart. */
  lemma KeysApart(pool: set<Id>, split: Id, other: Id)
    ensures PoolKey(pool) != SplitKey(split)
    ensures SplitKey(split) == SplitKey(other) <==> split == other
  {
    ListingExistsNow(pool);
    assert PoolKey(pool)[0] == 'p' && SplitKey(split)[0] == 's';
    assert SplitKey(split)[6..] == split && SplitKey(other)[6..] == other;
  }

  // ----- the text of a key

  /** a comes before b in a dictionary of code units. */
  ghost predicate DictionaryBefore(a: string, b: string)
  {
    exists n :: 0 <= n <= |a| && n <= |b| && a[..n] == b[..n] && (n == |a| || (n < |b| && a[n] < b[n]))
  }

  lemma {:induction false} BeforeMeans(a: string, b: string)
    requires Before(a, b)
    ensures DictionaryBefore(a, b)
  {
    if a == "" {
      assert a[..0] == b[..0];
    } else if a[0] < b[0] {
      assert a[..0] == b[..0];
    } else {
      BeforeMeans(a[1..], b[1..]);
      var x, y := a[1..], b[1..];
      var n :| 0 <= n <= |x| && n <= |y| && x[..n] == y[..n] && (n == |x| || (n < |y| && x[n] < y[n]));
      assert a[..n + 1] == [a[0]] + x[..n] && b[..n + 1] == [b[0]] + y[..n];
    }
  }

  /** A pool's key is "pool:" and the ids of its rewards, ascending and once each, with commas between. */
  lemma KeyReads(rows: seq<Id>)
    requires NoDup(rows) && rows != []
    ensures var key := KeyOfRows(rows);
      |key| >= 5 && key[..5] == "pool:" &&
      var parts := Text.Split(key[5..], ',');
      |parts| == |rows| && (forall p :: p in parts <==> p in rows) &&
      forall i, j :: 0 <= i < j < |parts| ==> DictionaryBefore(parts[i], parts[j]) && parts[i] != parts[j]
  {
    var sorted := Sort(rows);
    SortSorts(rows);
    assert KeyOfRows(rows)[5..] == Text.Join(sorted, ',');
    Text.SplitJoin(sorted, ',');
    forall p ensures p in sorted <==> p in rows {
      if p in sorted { assert p in Elems(sorted); }
      if p in rows { assert p in Elems(rows); }
    }
    forall i, j | 0 <= i < j < |sorted| ensures DictionaryBefore(sorted[i], sorted[j]) {
      BeforeMeans(sorted[i], sorted[j]);
    }
  }
}
