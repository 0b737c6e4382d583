/** Group-by over the long-format table: the keys pandas groups on, the
    groups themselves and the sums taken over them. The conservation lemmas
    here say that summing per group and then over all groups gives the sum
    over the whole table, whatever the grouping. */
module Grouping {
  import opened Seqs
  import opened Records

  /** The column(s) a table is grouped by. */
  datatype Level =
    | ByTerritory      // 'TerritoryName'
    | ByPostalCode     // 'PostalCode'
    | BySite           // ['TerritoryName', 'PostalCode', 'Latitude', 'Longitude']
    | ByProducerType   // ['ProducerName', 'OpptyType']

  datatype Key =
    | TerritoryKey(territory: string)
    | PostalKey(postalCode: PostalCode)
    | SiteKey(territory: string, postalCode: PostalCode, latitude: int, longitude: int)
    | ProducerTypeKey(producer: ProducerName, opptyType: OpptyType)

  function KeyOf(level: Level, r: Record): Key {
    match level
    case ByTerritory => TerritoryKey(r.territory)
    case ByPostalCode => PostalKey(r.postalCode)
    case BySite => SiteKey(r.territory, r.postalCode, r.latitude, r.longitude)
    case ByProducerType => ProducerTypeKey(r.producer, r.opptyType)
  }

  function KeyColumn(level: Level, rs: seq<Record>): (ks: seq<Key>)
    ensures |ks| == |rs|
    ensures forall i :: 0 <= i < |rs| ==> ks[i] == KeyOf(level, rs[i])
  {
    seq(|rs|, i requires 0 <= i < |rs| => KeyOf(level, rs[i]))
  }

  /** The group keys of `rs`, each once, in order of first appearance. */
  function Keys(level: Level, rs: seq<Record>): (ks: seq<Key>)
    ensures NoDups(ks)
  {
    Distinct(KeyColumn(level, rs))
  }

  /** Every record's key is among the keys. */
  lemma KeysCover(level: Level, rs: seq<Record>)
    ensures forall r :: r in rs ==> KeyOf(level, r) in Keys(level, rs)
  {
    var col := KeyColumn(level, rs);
    forall r | r in rs ensures KeyOf(level, r) in Keys(level, rs) {
      var i := IndexOf(rs, r);
      assert col[i] in col;
    }
  }

  /** Every key is the key of some record of the table. */
  lemma KeyHasRecord(level: Level, rs: seq<Record>, k: Key)
    requires k in Keys(level, rs)
    ensures exists r :: r in rs && KeyOf(level, r) == k
  {
    var col := KeyColumn(level, rs);
    var i := IndexOf(col, k);
    assert rs[i] in rs;
  }

  /** The records of `rs` whose key is `k`, in table order. */
  function Group(level: Level, rs: seq<Record>, k: Key): (g: seq<Record>)
    ensures |g| <= |rs|
  {
    if rs == [] then []
    else if KeyOf(level, rs[0]) == k then [rs[0]] + Group(level, rs[1..], k)
    else Group(level, rs[1..], k)
  }

  /** A group holds exactly the records of the table that have its key. */
  lemma {:induction false} GroupMembers(level: Level, rs: seq<Record>, k: Key)
    ensures forall r :: r in Group(level, rs, k) <==> r in rs && KeyOf(level, r) == k
  {
    if rs != [] {
      GroupMembers(level, rs[1..], k);
      assert forall r :: r in rs <==> r == rs[0] || r in rs[1..];
    }
  }

  /** What a sum adds up: all assets, the assets of one type (0 for the
      other types, as `fillna(0)` has it), or one per row (a count). */
  datatype Measure = Assets | AssetsOfType(t: OpptyType) | Rows

  function Weight(r: Record, m: Measure): int {
    match m
    case Assets => r.totalAssets
    case AssetsOfType(t) => if r.opptyType == t then r.totalAssets else 0
    case Rows => 1
  }

  function SumOf(rs: seq<Record>, m: Measure): int {
    if rs == [] then 0 else Weight(rs[0], m) + SumOf(rs[1..], m)
  }

  /** The per-group sums of `rs` added up over the keys `ks`. */
  function SumOverKeys(level: Level, ks: seq<Key>, rs: seq<Record>, m: Measure): int {
    if ks == [] then 0
    else SumOf(Group(level, rs, ks[0]), m) + SumOverKeys(level, ks[1..], rs, m)
  }

  /** Counting rows is the length. */
  lemma {:induction false} SumOfRowsIsLength(rs: seq<Record>)
    ensures SumOf(rs, Rows) == |rs|
  {
    if rs != [] {
      SumOfRowsIsLength(rs[1..]);
    }
  }

  lemma {:induction false} SumOfAppend(a: seq<Record>, b: seq<Record>, m: Measure)
    ensures SumOf(a + b, m) == SumOf(a, m) + SumOf(b, m)
  {
    if a == [] {
      assert a + b == b;
    } else {
      assert (a + b)[1..] == a[1..] + b;
      SumOfAppend(a[1..], b, m);
    }
  }

  /** The value of a table is the sum of the values of the three types and of
      the placeholder's type. */
  lemma {:induction false} AssetsSplitByType(rs: seq<Record>)
    ensures SumOf(rs, Assets)
         == SumOf(rs, AssetsOfType(TypeA)) + SumOf(rs, AssetsOfType(TypeB))
          + SumOf(rs, AssetsOfType(TypeC)) + SumOf(rs, AssetsOfType(ZeroType))
  {
    if rs != [] {
      AssetsSplitByType(rs[1..]);
    }
  }

  /** Adding one record to the front of the table adds its weight to the
      one group among `ks` that it joins, if any. */
  lemma {:induction false} SumOverKeysCons(level: Level, ks: seq<Key>, r: Record, rs: seq<Record>, m: Measure)
    requires NoDups(ks)
    ensures SumOverKeys(level, ks, [r] + rs, m)
         == SumOverKeys(level, ks, rs, m) + (if KeyOf(level, r) in ks then Weight(r, m) else 0)
  {
    if ks != [] {
      assert ([r] + rs)[1..] == rs;
      assert NoDups(ks[1..]);
      SumOverKeysCons(level, ks[1..], r, rs, m);
      assert KeyOf(level, r) == ks[0] ==> KeyOf(level, r) !in ks[1..];
      assert KeyOf(level, r) in ks <==> KeyOf(level, r) == ks[0] || KeyOf(level, r) in ks[1..];
    }
  }

  /** Sums over a duplicate-free list of keys that covers every record add
      up to the sum over the whole table. */
  lemma {:induction false} SumOverCoveringKeys(level: Level, ks: seq<Key>, rs: seq<Record>, m: Measure)
    requires NoDups(ks)
    requires forall r :: r in rs ==> KeyOf(level, r) in ks
    ensures SumOverKeys(level, ks, rs, m) == SumOf(rs, m)
  {
    if rs == [] {
      SumOverKeysOfEmpty(level, ks, m);
    } else {
      assert rs == [rs[0]] + rs[1..];
      SumOverCoveringKeys(level, ks, rs[1..], m);
      SumOverKeysCons(level, ks, rs[0], rs[1..], m);
    }
  }

  lemma {:induction false} SumOverKeysOfEmpty(level: Level, ks: seq<Key>, m: Measure)
    ensures SumOverKeys(level, ks, [], m) == 0
  {
    if ks != [] {
      SumOverKeysOfEmpty(level, ks[1..], m);
    }
  }

  /** Conservation: the group sums at any level add up to the table's sum. */
  lemma GroupSumsConserve(level: Level, rs: seq<Record>, m: Measure)
    ensures SumOverKeys(level, Keys(level, rs), rs, m) == SumOf(rs, m)
  {
    KeysCover(level, rs);
    SumOverCoveringKeys(level, Keys(level, rs), rs, m);
  }

  /** A group holds every copy of its records and nothing else. */
  lemma {:induction false} GroupMultiplicity(level: Level, rs: seq<Record>, k: Key, x: Record)
    ensures multiset(Group(level, rs, k))[x] == if KeyOf(level, x) == k then multiset(rs)[x] else 0
  {
    if rs != [] {
      assert rs == [rs[0]] + rs[1..];
      GroupMultiplicity(level, rs[1..], k, x);
    }
  }

  /** Reordering the table reorders each group and nothing more. */
  lemma GroupOfPermutation(level: Level, a: seq<Record>, b: seq<Record>, k: Key)
    requires multiset(a) == multiset(b)
    ensures multiset(Group(level, a, k)) == multiset(Group(level, b, k))
  {
    forall x ensures multiset(Group(level, a, k))[x] == multiset(Group(level, b, k))[x] {
      GroupMultiplicity(level, a, k, x);
      GroupMultiplicity(level, b, k, x);
    }
  }

  /** Removing the record at `i` removes its weight from the sum. */
  lemma SumOfRemove(b: seq<Record>, i: nat, m: Measure)
    requires i < |b|
    ensures SumOf(b, m) == Weight(b[i], m) + SumOf(b[..i] + b[i + 1..], m)
  {
    assert b == b[..i] + [b[i]] + b[i + 1..];
    SumOfAppend(b[..i] + [b[i]], b[i + 1..], m);
    SumOfAppend(b[..i], [b[i]], m);
    SumOfAppend(b[..i], b[i + 1..], m);
  }

  /** Removing the record at `i` removes one copy of it from the multiset. */
  lemma MultisetRemove(b: seq<Record>, i: nat)
    requires i < |b|
    ensures multiset(b[..i] + b[i + 1..]) == multiset(b) - multiset{b[i]}
  {
    assert b == b[..i] + [b[i]] + b[i + 1..];
  }

  /** Sums do not depend on row order. */
  lemma {:induction false} SumOfPermutation(a: seq<Record>, b: seq<Record>, m: Measure)
    requires multiset(a) == multiset(b)
    ensures SumOf(a, m) == SumOf(b, m)
    decreases |a|
  {
    if a == [] {
      assert |b| == |multiset(b)| == 0;
    } else {
      var r := a[0];
      assert r in multiset(b);
      var i := IndexOf(b, r);
      assert a == [r] + a[1..];
      assert multiset(a[1..]) == multiset(a) - multiset{r};
      MultisetRemove(b, i);
      SumOfPermutation(a[1..], b[..i] + b[i + 1..], m);
      SumOfRemove(b, i, m);
    }
  }
}
