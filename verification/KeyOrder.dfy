/**
 Key order: the order in which a `std::map` keyed by string visits its entries,
 and the two views of a record collection, as a map and as a list in key order.
 */
module KeyOrder {
  import opened Domain

  /** Strict lexicographic order on keys. */
  predicate Below(a: string, b: string) {
    b != [] && (a == [] || a[0] < b[0] || (a[0] == b[0] && Below(a[1..], b[1..])))
  }

  lemma {:induction false} BelowIrreflexive(a: string)
    ensures !Below(a, a)
  {
    if a != [] {
      BelowIrreflexive(a[1..]);
    }
  }

  lemma {:induction false} BelowTransitive(a: string, b: string, c: string)
    requires Below(a, b) && Below(b, c)
    ensures Below(a, c)
  {
    if a != [] && a[0] == b[0] && b[0] == c[0] {
      BelowTransitive(a[1..], b[1..], c[1..]);
    }
  }

  lemma {:induction false} BelowTotal(a: string, b: string)
    ensures a == b || Below(a, b) || Below(b, a)
  {
    if a != [] && b != [] && a[0] == b[0] {
      BelowTotal(a[1..], b[1..]);
      if a[1..] == b[1..] {
        assert a == [a[0]] + a[1..] && b == [b[0]] + b[1..];
      }
    }
  }

  /** The order by characters: the first difference decides, or the shorter one is below. */
  lemma {:induction false} BelowIff(a: string, b: string)
    ensures Below(a, b) <==> exists n: nat :: FirstDifference(a, b, n) && (n == |a| || a[n] < b[n])
  {
    if a != [] && b != [] && a[0] == b[0] {
      BelowIff(a[1..], b[1..]);
      forall n: nat ensures FirstDifference(a, b, n + 1) <==> FirstDifference(a[1..], b[1..], n) {
        SameStart(a, b, n);
      }
      if Below(a, b) {
        var n: nat :| FirstDifference(a[1..], b[1..], n) && (n == |a[1..]| || a[1..][n] < b[1..][n]);
        assert FirstDifference(a, b, n + 1);
      }
      forall n: nat | FirstDifference(a, b, n) && (n == |a| || a[n] < b[n]) ensures Below(a, b) {
        assert n > 0 && FirstDifference(a[1..], b[1..], n - 1);
      }
    } else if Below(a, b) {
      assert FirstDifference(a, b, 0);
    }
  }

  /** The texts agree before position `n` and differ there. */
  predicate FirstDifference(a: string, b: string, n: nat) {
    n <= |a| && n < |b| && a[..n] == b[..n] && (n < |a| ==> a[n] != b[n])
  }

  lemma SameStart(a: string, b: string, n: nat)
    requires a != [] && b != [] && a[0] == b[0]
    ensures FirstDifference(a, b, n + 1) <==> FirstDifference(a[1..], b[1..], n)
  {
    if n + 1 <= |a| && n + 1 < |b| {
      assert a[..n + 1] == [a[0]] + a[1..][..n] && b[..n + 1] == [b[0]] + b[1..][..n];
    }
  }

  predicate IsLeast(k: string, keys: set<string>) {
    k in keys && forall j <- keys :: j == k || Below(k, j)
  }

  lemma {:induction false} LeastExists(keys: set<string>)
    requires keys != {}
    ensures exists k :: IsLeast(k, keys)
    decreases |keys|
  {
    var x :| x in keys;
    var rest := keys - {x};
    if rest == {} {
      assert keys == {x};
      assert IsLeast(x, keys);
    } else {
      LeastExists(rest);
      var y :| IsLeast(y, rest);
      BelowTotal(x, y);
      if Below(x, y) {
        forall j | j in keys ensures j == x || Below(x, j) {
          if j != x && j != y {
            BelowTransitive(x, y, j);
          }
        }
        assert IsLeast(x, keys);
      } else {
        assert IsLeast(y, keys);
      }
    }
  }

  lemma LeastIsUnique(keys: set<string>)
    ensures forall j, k :: IsLeast(j, keys) && IsLeast(k, keys) ==> j == k
  {
    forall j, k | IsLeast(j, keys) && IsLeast(k, keys) ensures j == k {
      if Below(j, k) && Below(k, j) {
        BelowTransitive(j, k, j);
        BelowIrreflexive(j);
      }
    }
  }

  function SortedKeys(keys: set<string>): seq<string> {
    if keys == {} then [] else
      LeastExists(keys);
      LeastIsUnique(keys);
      var k :| k in keys && IsLeast(k, keys);
      [k] + SortedKeys(keys - {k})
  }

  // ----- records as a list and as a map -----

  type RecordMap = map<string, AlertRecord>

  ghost predicate WellKeyed(m: RecordMap) {
    forall k <- m :: m[k].key == k
  }

  function Lookup(m: RecordMap, k: string): Option<AlertRecord> {
    if k in m then Some(m[k]) else None
  }

  /** Inserting the records one by one, an earlier record winning over a later
      one with the same key. */
  function MapOf(records: seq<AlertRecord>): RecordMap {
    if records == [] then map[] else
      var m := MapOf(records[..|records| - 1]);
      var r := records[|records| - 1];
      if r.key in m then m else m[r.key := r]
  }

  ghost predicate DistinctKeys(records: seq<AlertRecord>) {
    forall i, j :: 0 <= i < j < |records| ==> records[i].key != records[j].key
  }

  /** Strictly ascending keys: the order in which the records map is visited. */
  ghost predicate Ascending(records: seq<AlertRecord>) {
    forall i, j :: 0 <= i < j < |records| ==> Below(records[i].key, records[j].key)
  }

  lemma AscendingIsDistinct(records: seq<AlertRecord>)
    requires Ascending(records)
    ensures DistinctKeys(records)
  {
    forall i, j | 0 <= i < j < |records| ensures records[i].key != records[j].key {
      BelowIrreflexive(records[i].key);
    }
  }

  ghost predicate HasKey(records: seq<AlertRecord>, k: string) {
    exists i :: 0 <= i < |records| && records[i].key == k
  }

  lemma {:induction false} MapOfKey(records: seq<AlertRecord>, k: string)
    ensures k in MapOf(records) <==> HasKey(records, k)
    ensures k in MapOf(records) ==> MapOf(records)[k].key == k && MapOf(records)[k] in records
  {
    if records != [] {
      var init, last := records[..|records| - 1], records[|records| - 1];
      assert records == init + [last];
      MapOfKey(init, k);
      if HasKey(init, k) {
        var i :| 0 <= i < |init| && init[i].key == k;
        assert records[i].key == k;
      } else if k == last.key {
        assert records[|records| - 1].key == k;
      }
    }
  }

  /** Of records with the same key, the first is found. */
  lemma {:induction false} MapOfFirst(records: seq<AlertRecord>, k: string, i: nat)
    requires i < |records| && records[i].key == k
    requires forall j :: 0 <= j < i ==> records[j].key != k
    ensures Lookup(MapOf(records), k) == Some(records[i])
  {
    var init := records[..|records| - 1];
    if i < |init| {
      MapOfFirst(init, k, i);
    } else {
      MapOfKey(init, k);
    }
  }

  lemma MapOfWellKeyed(records: seq<AlertRecord>)
    ensures WellKeyed(MapOf(records))
  {
    forall k | k in MapOf(records) ensures MapOf(records)[k].key == k {
      MapOfKey(records, k);
    }
  }

  lemma LastKeyIsNew(records: seq<AlertRecord>)
    requires records != [] && DistinctKeys(records)
    ensures DistinctKeys(records[..|records| - 1])
    ensures records[|records| - 1].key !in MapOf(records[..|records| - 1])
  {
    var init, last := records[..|records| - 1], records[|records| - 1];
    MapOfKey(init, last.key);
    assert forall i :: 0 <= i < |init| ==> init[i] == records[i];
  }

  lemma {:induction false} MapOfDistinct(records: seq<AlertRecord>)
    requires DistinctKeys(records)
    ensures forall i :: 0 <= i < |records| ==>
      records[i].key in MapOf(records) && MapOf(records)[records[i].key] == records[i]
    ensures |MapOf(records)| == |records|
  {
    if records != [] {
      LastKeyIsNew(records);
      var init := records[..|records| - 1];
      MapOfDistinct(init);
      assert forall i :: 0 <= i < |init| ==> init[i] == records[i];
    }
  }

  /** De-duplication is visible in the size: the map is as large as the list
      exactly when no key repeats. */
  lemma {:induction false} MapOfSize(records: seq<AlertRecord>)
    ensures |MapOf(records)| <= |records|
    ensures |MapOf(records)| == |records| <==> DistinctKeys(records)
  {
    if records != [] {
      var init, last := records[..|records| - 1], records[|records| - 1];
      MapOfSize(init);
      MapOfKey(init, last.key);
      if DistinctKeys(records) {
        LastKeyIsNew(records);
      } else if DistinctKeys(init) {
        RepeatedLast(records);
      }
    }
  }

  lemma RepeatedLast(records: seq<AlertRecord>)
    requires records != [] && !DistinctKeys(records) && DistinctKeys(records[..|records| - 1])
    ensures HasKey(records[..|records| - 1], records[|records| - 1].key)
  {
    var init := records[..|records| - 1];
    var i, j :| 0 <= i < j < |records| && records[i].key == records[j].key;
    assert forall x :: 0 <= x < |init| ==> init[x] == records[x];
    assert j == |init|;
  }

  /** Two ascending lists with the same map are the same list. */
  lemma {:induction false} AscendingUnique(a: seq<AlertRecord>, b: seq<AlertRecord>)
    requires Ascending(a) && Ascending(b) && MapOf(a) == MapOf(b)
    ensures a == b
  {
    AscendingIsDistinct(a);
    AscendingIsDistinct(b);
    MapOfDistinct(a);
    MapOfDistinct(b);
    if a != [] {
      var n := |a| - 1;
      assert |b| == n + 1;
      var x, y := a[n], b[n];
      LastIsGreatest(a, y.key);
      LastIsGreatest(b, x.key);
      if x.key != y.key {
        BelowTransitive(x.key, y.key, x.key);
        BelowIrreflexive(x.key);
      }
      assert x == y;
      InitMap(a);
      InitMap(b);
      AscendingUnique(a[..n], b[..n]);
      assert a == a[..n] + [x] && b == b[..n] + [y];
    }
  }

  lemma LastIsGreatest(a: seq<AlertRecord>, k: string)
    requires Ascending(a) && a != [] && k in MapOf(a)
    ensures k == a[|a| - 1].key || Below(k, a[|a| - 1].key)
  {
    MapOfKey(a, k);
    var i :| 0 <= i < |a| && a[i].key == k;
  }

  lemma {:induction false} InitMap(a: seq<AlertRecord>)
    requires a != [] && DistinctKeys(a)
    ensures MapOf(a[..|a| - 1]) == MapOf(a) - {a[|a| - 1].key}
  {
    LastKeyIsNew(a);
  }

  /** A record above all others goes to the end. */
  lemma AppendAbove(a: seq<AlertRecord>, record: AlertRecord)
    requires Ascending(a) && forall i :: 0 <= i < |a| ==> Below(a[i].key, record.key)
    ensures Ascending(a + [record])
    ensures MapOf(a + [record]) == MapOf(a)[record.key := record]
  {
    var all := a + [record];
    assert all[..|all| - 1] == a;
    AscendingIsDistinct(all);
    LastKeyIsNew(all);
  }

  /** The records of a map in key order. */
  ghost function InKeyOrder(m: RecordMap): (r: seq<AlertRecord>)
    requires WellKeyed(m)
    ensures Ascending(r)
    ensures MapOf(r) == m
    decreases |m|
  {
    if m == map[] then [] else
      LeastExists(m.Keys);
      var k :| IsLeast(k, m.Keys);
      var rest := InKeyOrder(m - {k});
      Prepend(m[k], rest, m);
      [m[k]] + rest
  }

  lemma Prepend(first: AlertRecord, rest: seq<AlertRecord>, m: RecordMap)
    requires WellKeyed(m) && IsLeast(first.key, m.Keys) && m[first.key] == first
    requires Ascending(rest) && MapOf(rest) == m - {first.key}
    ensures Ascending([first] + rest)
    ensures MapOf([first] + rest) == m
  {
    AscendingIsDistinct(rest);
    MapOfDistinct(rest);
    forall i | 0 <= i < |rest| ensures Below(first.key, rest[i].key) {
      assert rest[i].key in MapOf(rest);
    }
    PrependMap(first, rest);
    assert MapOf(rest)[first.key := first] == m;
  }

  lemma {:induction false} PrependMap(first: AlertRecord, rest: seq<AlertRecord>)
    requires Ascending(rest) && forall i :: 0 <= i < |rest| ==> Below(first.key, rest[i].key)
    ensures Ascending([first] + rest)
    ensures MapOf([first] + rest) == MapOf(rest)[first.key := first]
  {
    if rest == [] {
      assert ([first] + rest)[..0] == [];
      assert MapOf([first] + rest) == MapOf(rest)[first.key := first];
    } else {
      var init, last := rest[..|rest| - 1], rest[|rest| - 1];
      PrependMap(first, init);
      assert [first] + rest == ([first] + init) + [last] && rest == init + [last];
      BelowIrreflexive(first.key);
      AppendBoth(first, [first] + init, init, last);
    }
  }

  lemma AppendBoth(first: AlertRecord, more: seq<AlertRecord>, init: seq<AlertRecord>, last: AlertRecord)
    requires Ascending(more) && Ascending(init) && MapOf(more) == MapOf(init)[first.key := first]
    requires first.key != last.key
    requires forall i :: 0 <= i < |more| ==> Below(more[i].key, last.key)
    requires forall i :: 0 <= i < |init| ==> Below(init[i].key, last.key)
    ensures Ascending(more + [last])
    ensures MapOf(more + [last]) == MapOf(init + [last])[first.key := first]
  {
    AppendAbove(init, last);
    AppendAbove(more, last);
  }
}
