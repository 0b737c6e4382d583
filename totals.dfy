/** The totals table (`em_app.py`, `totalstable`): per territory or per postal
    code, the value of each opportunity type, their grand total and the
    number of opportunities, with the placeholder row discounted. */
module Totals {
  import opened Seqs
  import opened Records
  import opened Grouping

  /** `totalstable` is called with 'TerritoryName' or 'PostalCode' only. */
  predicate TotalsLevel(level: Level) {
    level == ByTerritory || level == ByPostalCode
  }

  /** The group whose count is lowered by one for the placeholder row:
      territory "New" at the territory level, postal code 0 otherwise. */
  function PlaceholderKey(level: Level): Key {
    if level == ByTerritory then TerritoryKey(NewTerritory) else PostalKey(ZeroCode)
  }

  datatype TotalsRow = TotalsRow(
    key: Key,
    totalOpptyValue: int,
    typeA: int,
    typeB: int,
    typeC: int,
    totalOpptyCount: int)

  /** The row of group `k`: the value of every record in it (whatever its
      type), the value per fixed type column (0 when the type is absent),
      and the number of records less one for the placeholder group. */
  function RowFor(level: Level, rs: seq<Record>, k: Key): (row: TotalsRow)
    ensures row.key == k
    ensures row.totalOpptyCount
         == |Group(level, rs, k)| - (if k == PlaceholderKey(level) then 1 else 0)
  {
    var g := Group(level, rs, k);
    SumOfRowsIsLength(g);
    TotalsRow(k,
      SumOf(g, Assets),
      SumOf(g, AssetsOfType(TypeA)),
      SumOf(g, AssetsOfType(TypeB)),
      SumOf(g, AssetsOfType(TypeC)),
      SumOf(g, Rows) - (if k == PlaceholderKey(level) then 1 else 0))
  }

  function RowsFor(level: Level, ks: seq<Key>, rs: seq<Record>): (rows: seq<TotalsRow>)
    ensures |rows| == |ks|
    ensures forall i :: 0 <= i < |ks| ==> rows[i] == RowFor(level, rs, ks[i])
    ensures forall i :: 0 <= i < |ks| ==> rows[i].key == ks[i]
  {
    seq(|ks|, i requires 0 <= i < |ks| => RowFor(level, rs, ks[i]))
  }

  /** The totals table: exactly one row for every key present in `rs`. */
  function TotalsTable(level: Level, rs: seq<Record>): (table: seq<TotalsRow>)
    requires TotalsLevel(level)
    ensures forall i, j :: 0 <= i < j < |table| ==> table[i].key != table[j].key
    ensures |table| == |Keys(level, rs)|
    ensures forall i :: 0 <= i < |table| ==> table[i] == RowFor(level, rs, Keys(level, rs)[i])
  {
    var ks := Keys(level, rs);
    RowsFor(level, ks, rs)
  }

  /** Every record has its row in the totals table: the one at the first
      appearance of its key. */
  lemma TotalsRowOfRecord(level: Level, rs: seq<Record>, r: Record)
    requires TotalsLevel(level) && r in rs
    ensures var i := IndexOf(Keys(level, rs), KeyOf(level, r));
      i < |TotalsTable(level, rs)| && TotalsTable(level, rs)[i].key == KeyOf(level, r)
  {
  }

  /** Every row of the totals table belongs to a group present in `rs`. */
  lemma TotalsRowsArePresentGroups(level: Level, rs: seq<Record>, i: nat)
    requires TotalsLevel(level) && i < |TotalsTable(level, rs)|
    ensures exists r :: r in rs && KeyOf(level, r) == TotalsTable(level, rs)[i].key
  {
    var ks := Keys(level, rs);
    assert TotalsTable(level, rs)[i].key == ks[i];
    KeyHasRecord(level, rs, ks[i]);
  }

  /** The placeholder row always falls in the placeholder group. */
  lemma PlaceholderInPlaceholderGroup(level: Level)
    requires TotalsLevel(level)
    ensures KeyOf(level, Placeholder) == PlaceholderKey(level)
  {
  }

  /** No record of the placeholder's type carries value: true of the loaded
      table (the placeholder's assets are 0 and file rows have a real type). */
  predicate ZeroTypeCarriesNothing(rs: seq<Record>) {
    forall r :: r in rs && r.opptyType == ZeroType ==> r.totalAssets == 0
  }

  lemma {:induction false} ZeroTypeSumsToZero(rs: seq<Record>)
    requires ZeroTypeCarriesNothing(rs)
    ensures SumOf(rs, AssetsOfType(ZeroType)) == 0
  {
    if rs != [] {
      assert rs[0] in rs;
      ZeroTypeCarriesNothingTail(rs);
      ZeroTypeSumsToZero(rs[1..]);
    }
  }

  lemma ZeroTypeCarriesNothingTail(rs: seq<Record>)
    requires rs != [] && ZeroTypeCarriesNothing(rs)
    ensures ZeroTypeCarriesNothing(rs[1..])
  {
    assert forall r :: r in rs[1..] ==> r in rs;
  }

  /** A type with no record in a group sums to 0 there: the `fillna(0)` and
      `reindex(..., fill_value=0)` of a missing type column. */
  lemma {:induction false} AbsentTypeIsZero(g: seq<Record>, t: OpptyType)
    requires forall r :: r in g ==> r.opptyType != t
    ensures SumOf(g, AssetsOfType(t)) == 0
  {
    if g != [] {
      assert g[0] in g;
      assert forall r :: r in g[1..] ==> r in g;
      AbsentTypeIsZero(g[1..], t);
    }
  }

  /** A row's type column is 0 when its group has no record of that type. */
  lemma AbsentTypeColumnIsZero(level: Level, rs: seq<Record>, i: nat, t: OpptyType)
    requires TotalsLevel(level) && i < |TotalsTable(level, rs)|
    requires forall r :: r in rs && KeyOf(level, r) == TotalsTable(level, rs)[i].key ==> r.opptyType != t
    ensures var row := TotalsTable(level, rs)[i];
      && (t == TypeA ==> row.typeA == 0)
      && (t == TypeB ==> row.typeB == 0)
      && (t == TypeC ==> row.typeC == 0)
  {
    var k := Keys(level, rs)[i];
    GroupMembers(level, rs, k);
    AbsentTypeIsZero(Group(level, rs, k), t);
  }

  /** The loaded table meets the hypothesis of `TotalIsSumOfTypes`: file rows
      have a real type and the placeholder's assets are 0. */
  lemma LoadedCarriesNothing(rows: seq<Record>)
    requires forall r :: r in rows ==> FileRow(r)
    ensures ZeroTypeCarriesNothing(Load(rows))
  {
    assert forall r :: r in Load(rows) ==> r in rows || r == Placeholder;
  }

  /** The grand total of every row is the sum of its three type columns. */
  lemma TotalIsSumOfTypes(level: Level, rs: seq<Record>, i: nat)
    requires TotalsLevel(level) && i < |TotalsTable(level, rs)|
    requires ZeroTypeCarriesNothing(rs)
    ensures var row := TotalsTable(level, rs)[i];
      row.totalOpptyValue == row.typeA + row.typeB + row.typeC
  {
    var g := Group(level, rs, Keys(level, rs)[i]);
    GroupMembers(level, rs, Keys(level, rs)[i]);
    assert ZeroTypeCarriesNothing(g);
    AssetsSplitByType(g);
    ZeroTypeSumsToZero(g);
  }

  /** Every count is the size of its group, less one in the placeholder
      group, and is never negative. */
  lemma CountDiscountsPlaceholder(level: Level, rs: seq<Record>, i: nat)
    requires TotalsLevel(level) && i < |TotalsTable(level, rs)|
    ensures var row := TotalsTable(level, rs)[i];
      && row.totalOpptyCount
         == |Group(level, rs, row.key)| - (if row.key == PlaceholderKey(level) then 1 else 0)
      && row.totalOpptyCount >= 0
  {
    var k := Keys(level, rs)[i];
    var g := Group(level, rs, k);
    SumOfRowsIsLength(g);
    KeyHasRecord(level, rs, k);
    var r :| r in rs && KeyOf(level, r) == k;
    GroupMembers(level, rs, k);
    assert r in g;
  }

  function WithoutPlaceholder(g: seq<Record>): (h: seq<Record>)
    ensures forall r :: r in h <==> r in g && r != Placeholder
  {
    if g == [] then []
    else if g[0] == Placeholder then WithoutPlaceholder(g[1..])
    else [g[0]] + WithoutPlaceholder(g[1..])
  }

  lemma {:induction false} WithoutPlaceholderSize(g: seq<Record>)
    ensures |WithoutPlaceholder(g)| + multiset(g)[Placeholder] == |g|
  {
    if g != [] {
      assert g == [g[0]] + g[1..];
      WithoutPlaceholderSize(g[1..]);
    }
  }

  /** When the table holds the placeholder row exactly once, every count is
      the number of real opportunities in its group; in particular a group
      made of the placeholder row alone counts 0. */
  lemma CountExcludesPlaceholder(level: Level, rs: seq<Record>, i: nat)
    requires TotalsLevel(level) && i < |TotalsTable(level, rs)|
    requires multiset(rs)[Placeholder] == 1
    ensures var row := TotalsTable(level, rs)[i];
      row.totalOpptyCount == |WithoutPlaceholder(Group(level, rs, row.key))|
  {
    var k := Keys(level, rs)[i];
    var g := Group(level, rs, k);
    CountDiscountsPlaceholder(level, rs, i);
    GroupMultiplicity(level, rs, k, Placeholder);
    WithoutPlaceholderSize(g);
  }

  /** The columns of the totals table that hold numbers. */
  datatype Column = TotalValue | TypeAColumn | TypeBColumn | TypeCColumn | CountColumn

  function Cell(row: TotalsRow, col: Column): int {
    match col
    case TotalValue => row.totalOpptyValue
    case TypeAColumn => row.typeA
    case TypeBColumn => row.typeB
    case TypeCColumn => row.typeC
    case CountColumn => row.totalOpptyCount
  }

  function MeasureOf(col: Column): Measure {
    match col
    case TotalValue => Assets
    case TypeAColumn => AssetsOfType(TypeA)
    case TypeBColumn => AssetsOfType(TypeB)
    case TypeCColumn => AssetsOfType(TypeC)
    case CountColumn => Rows
  }

  function ColumnSum(rows: seq<TotalsRow>, col: Column): int {
    if rows == [] then 0 else Cell(rows[0], col) + ColumnSum(rows[1..], col)
  }

  lemma {:induction false} ColumnSumOverKeys(level: Level, ks: seq<Key>, rs: seq<Record>, col: Column)
    requires NoDups(ks)
    ensures ColumnSum(RowsFor(level, ks, rs), col)
         == SumOverKeys(level, ks, rs, MeasureOf(col))
          - (if col == CountColumn && PlaceholderKey(level) in ks then 1 else 0)
  {
    if ks != [] {
      assert RowsFor(level, ks, rs)[1..] == RowsFor(level, ks[1..], rs);
      assert NoDups(ks[1..]);
      ColumnSumOverKeys(level, ks[1..], rs, col);
      assert PlaceholderKey(level) in ks
         <==> PlaceholderKey(level) == ks[0] || PlaceholderKey(level) in ks[1..];
    }
  }

  /** Conservation: each column of the totals table adds up to the same sum
      over the whole table; the counts add up to the number of records less
      one when the placeholder group is present. */
  lemma TotalsConserve(level: Level, rs: seq<Record>, col: Column)
    requires TotalsLevel(level)
    ensures ColumnSum(TotalsTable(level, rs), col)
         == SumOf(rs, MeasureOf(col))
          - (if col == CountColumn && PlaceholderKey(level) in Keys(level, rs) then 1 else 0)
  {
    var ks := Keys(level, rs);
    assert TotalsTable(level, rs) == RowsFor(level, ks, rs);
    ColumnSumOverKeys(level, ks, rs, col);
    GroupSumsConserve(level, rs, MeasureOf(col));
  }

  /** With the placeholder row present once, the counts add up to the number
      of real opportunities. */
  lemma CountsAddUpToRealRecords(level: Level, rs: seq<Record>)
    requires TotalsLevel(level)
    requires multiset(rs)[Placeholder] == 1
    ensures ColumnSum(TotalsTable(level, rs), CountColumn) == |rs| - 1
  {
    TotalsConserve(level, rs, CountColumn);
    SumOfRowsIsLength(rs);
    assert Placeholder in rs;
  }

  /** Row order of the input does not matter: each group's row is the same
      for any reordering of the records. */
  lemma RowOrderIrrelevant(level: Level, a: seq<Record>, b: seq<Record>, k: Key)
    requires multiset(a) == multiset(b)
    ensures RowFor(level, a, k) == RowFor(level, b, k)
  {
    var ga, gb := Group(level, a, k), Group(level, b, k);
    GroupOfPermutation(level, a, b, k);
    SumOfPermutation(ga, gb, Assets);
    SumOfPermutation(ga, gb, AssetsOfType(TypeA));
    SumOfPermutation(ga, gb, AssetsOfType(TypeB));
    SumOfPermutation(ga, gb, AssetsOfType(TypeC));
    SumOfPermutation(ga, gb, Rows);
  }
}
