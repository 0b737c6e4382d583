/** The zipcode hover table (`em_app.py`, `zipcodetable` and `update_zip`):
    per (territory, postal code, latitude, longitude) site, the number of
    distinct producers, joined with that postal code's totals, and the
    colour category of the site's territory. */
module Zipcodes {
  import opened Seqs
  import opened Records
  import opened Grouping
  import opened Totals

  /** One row of the per-site producer count. */
  datatype SiteRow = SiteRow(
    territory: string,
    postalCode: PostalCode,
    latitude: int,
    longitude: int,
    producers: int)

  function ProducerColumn(g: seq<Record>): (ps: seq<ProducerName>)
    ensures |ps| == |g| && forall i :: 0 <= i < |g| ==> ps[i] == g[i].producer
  {
    seq(|g|, i requires 0 <= i < |g| => g[i].producer)
  }

  /** The site of key `k` with its number of distinct producers (`nunique`). */
  function SiteRowFor(rs: seq<Record>, k: Key): SiteRow
    requires k.SiteKey?
  {
    SiteRow(k.territory, k.postalCode, k.latitude, k.longitude,
      |Distinct(ProducerColumn(Group(BySite, rs, k)))|)
  }

  lemma SiteKeysAreSiteKeys(rs: seq<Record>)
    ensures forall k :: k in Keys(BySite, rs) ==> k.SiteKey?
  {
  }

  function ProducerCounts(rs: seq<Record>): (rows: seq<SiteRow>)
    ensures |rows| == |Keys(BySite, rs)|
    ensures forall i :: 0 <= i < |rows| ==>
      Keys(BySite, rs)[i].SiteKey? && rows[i] == SiteRowFor(rs, Keys(BySite, rs)[i])
  {
    var ks := Keys(BySite, rs);
    SiteKeysAreSiteKeys(rs);
    seq(|ks|, i requires 0 <= i < |ks| => SiteRowFor(rs, ks[i]))
  }

  /** The all-zero "New" site: territory "New" and every other key column 0,
      the placeholder row's site. */
  predicate IsPlaceholderSite(row: SiteRow) {
    row.territory == NewTerritory && row.postalCode == ZeroCode
    && row.latitude == 0 && row.longitude == 0
  }

  /** The producer count with the placeholder site's count forced to 0. */
  function ClearPlaceholderProducers(rows: seq<SiteRow>): (cleared: seq<SiteRow>)
    ensures |cleared| == |rows|
    ensures forall i :: 0 <= i < |rows| ==>
      cleared[i] == if IsPlaceholderSite(rows[i]) then rows[i].(producers := 0) else rows[i]
  {
    seq(|rows|, i requires 0 <= i < |rows| =>
      if IsPlaceholderSite(rows[i]) then rows[i].(producers := 0) else rows[i])
  }

  /** The in-place pass over the "New" rows: collect their indices, then
      zero the producer count of each one whose other key columns are 0. */
  method ZeroPlaceholderProducers(rows: array<SiteRow>)
    modifies rows
    ensures rows[..] == ClearPlaceholderProducers(old(rows[..]))
  {
    var newRows: seq<nat> := [];
    var i := 0;
    while i < rows.Length
      invariant 0 <= i <= rows.Length
      invariant forall j :: 0 <= j < |newRows| ==> newRows[j] < i && rows[newRows[j]].territory == NewTerritory
      invariant forall j :: 0 <= j < i && rows[j].territory == NewTerritory ==> j in newRows
    {
      if rows[i].territory == NewTerritory {
        newRows := newRows + [i];
      }
      i := i + 1;
    }
    var n := 0;
    while n < |newRows|
      invariant 0 <= n <= |newRows|
      invariant forall j :: 0 <= j < rows.Length ==>
        rows[j] == if j in newRows[..n] && IsPlaceholderSite(old(rows[j]))
                   then old(rows[j]).(producers := 0) else old(rows[j])
    {
      var idx := newRows[n];
      if rows[idx].postalCode == ZeroCode && rows[idx].latitude == 0 && rows[idx].longitude == 0 {
        rows[idx] := rows[idx].(producers := 0);
      }
      assert newRows[..n + 1] == newRows[..n] + [idx];
      n := n + 1;
    }
    assert newRows[..n] == newRows;
  }

  /** A site row joined with its postal code's totals. */
  datatype ZipRow = ZipRow(site: SiteRow, totals: TotalsRow)

  /** The first totals row with key `k`, if any. */
  function LookupTotals(table: seq<TotalsRow>, k: Key): Option<TotalsRow> {
    if table == [] then None
    else if table[0].key == k then Some(table[0])
    else LookupTotals(table[1..], k)
  }

  /** Inner join on the postal code: a site whose postal code has no totals
      row is dropped. */
  function JoinTotals(sites: seq<SiteRow>, table: seq<TotalsRow>): seq<ZipRow> {
    if sites == [] then []
    else
      match LookupTotals(table, PostalKey(sites[0].postalCode))
      case None => JoinTotals(sites[1..], table)
      case Some(t) => [ZipRow(sites[0], t)] + JoinTotals(sites[1..], table)
  }

  /** The zipcode table of `zipcodetable`: the merge loses no site, and
      every site carries the totals of its own postal code. */
  function ZipcodeTable(rs: seq<Record>): (z: seq<ZipRow>)
    ensures |z| == |Keys(BySite, rs)|
    ensures forall i :: 0 <= i < |z| ==>
      z[i].totals == RowFor(ByPostalCode, rs, PostalKey(z[i].site.postalCode))
  {
    SitesJoin(rs);
    JoinTotals(ClearPlaceholderProducers(ProducerCounts(rs)), TotalsTable(ByPostalCode, rs))
  }

  lemma {:induction false} LookupFindsUniqueKey(table: seq<TotalsRow>, i: nat)
    requires i < |table|
    requires forall a, b :: 0 <= a < b < |table| ==> table[a].key != table[b].key
    ensures LookupTotals(table, table[i].key) == Some(table[i])
  {
    if i > 0 {
      LookupFindsUniqueKey(table[1..], i - 1);
    }
  }

  lemma {:induction false} JoinTotalsKeepsAll(sites: seq<SiteRow>, table: seq<TotalsRow>)
    requires forall i :: 0 <= i < |sites| ==> LookupTotals(table, PostalKey(sites[i].postalCode)).Some?
    ensures |JoinTotals(sites, table)| == |sites|
    ensures forall i :: 0 <= i < |sites| ==>
      JoinTotals(sites, table)[i]
        == ZipRow(sites[i], LookupTotals(table, PostalKey(sites[i].postalCode)).value)
  {
    if sites != [] {
      JoinTotalsKeepsAll(sites[1..], table);
    }
  }

  /** Every site's postal code has a row in the postal-code totals. */
  lemma SitePostalCodeHasTotals(rs: seq<Record>, k: Key)
    requires k in Keys(BySite, rs)
    ensures k.SiteKey?
    ensures LookupTotals(TotalsTable(ByPostalCode, rs), PostalKey(k.postalCode))
         == Some(RowFor(ByPostalCode, rs, PostalKey(k.postalCode)))
  {
    KeyHasRecord(BySite, rs, k);
    var r :| r in rs && KeyOf(BySite, r) == k;
    var pk := PostalKey(k.postalCode);
    var ks := Keys(ByPostalCode, rs);
    assert KeyOf(ByPostalCode, r) == pk;
    var i := IndexOf(ks, pk);
    var table := TotalsTable(ByPostalCode, rs);
    var row := table[i];
    assert row == RowFor(ByPostalCode, rs, pk);
    LookupFindsUniqueKey(table, i);
    assert table[i].key == pk;
  }

  lemma SiteRowHasTotals(rs: seq<Record>, i: nat)
    requires i < |Keys(BySite, rs)|
    ensures var sites := ClearPlaceholderProducers(ProducerCounts(rs));
      LookupTotals(TotalsTable(ByPostalCode, rs), PostalKey(sites[i].postalCode))
      == Some(RowFor(ByPostalCode, rs, PostalKey(sites[i].postalCode)))
  {
    var ks := Keys(BySite, rs);
    var sites := ClearPlaceholderProducers(ProducerCounts(rs));
    assert ks[i] in ks;
    var p := sites[i].postalCode;
    assert p == ks[i].postalCode;
    SitePostalCodeHasTotals(rs, ks[i]);
  }

  /** The inner join of the producer count with the postal-code totals,
      row for row. */
  lemma SitesJoin(rs: seq<Record>)
    ensures var sites := ClearPlaceholderProducers(ProducerCounts(rs));
      var z := JoinTotals(sites, TotalsTable(ByPostalCode, rs));
      && |z| == |sites|
      && forall i :: 0 <= i < |sites| ==>
           z[i] == ZipRow(sites[i], RowFor(ByPostalCode, rs, PostalKey(sites[i].postalCode)))
  {
    var sites := ClearPlaceholderProducers(ProducerCounts(rs));
    var table := TotalsTable(ByPostalCode, rs);
    forall i | 0 <= i < |sites|
      ensures LookupTotals(table, PostalKey(sites[i].postalCode))
           == Some(RowFor(ByPostalCode, rs, PostalKey(sites[i].postalCode)))
    {
      SiteRowHasTotals(rs, i);
    }
    JoinTotalsKeepsAll(sites, table);
  }

  /** The join loses no site: the zipcode table is the producer count,
      row for row, each joined with the totals of its postal code. */
  lemma ZipcodeTableJoin(rs: seq<Record>)
    ensures var sites := ClearPlaceholderProducers(ProducerCounts(rs));
      && |ZipcodeTable(rs)| == |sites|
      && forall i :: 0 <= i < |sites| ==>
           ZipcodeTable(rs)[i]
           == ZipRow(sites[i], RowFor(ByPostalCode, rs, PostalKey(sites[i].postalCode)))
  {
    SitesJoin(rs);
  }

  /** The number of distinct producer names of a group, counted by `Distinct`,
      is the size of the set of those names. */
  lemma ProducerCountIsDistinctNames(g: seq<Record>)
    ensures |Distinct(ProducerColumn(g))| == |set r | r in g :: r.producer|
  {
    var col := ProducerColumn(g);
    DistinctCountsValues(col);
    forall p | p in col ensures p in (set r | r in g :: r.producer) {
      var j := IndexOf(col, p);
      assert g[j] in g;
    }
    forall r | r in g ensures r.producer in col {
      var j := IndexOf(g, r);
      assert col[j] == r.producer;
    }
    assert (set p | p in col) == (set r | r in g :: r.producer);
  }

  /** Row `i` of the zipcode table sits at the `i`-th site present in `rs`. */
  lemma ZipSiteAt(rs: seq<Record>, i: nat)
    requires i < |Keys(BySite, rs)|
    ensures i < |ZipcodeTable(rs)|
    ensures var k := Keys(BySite, rs)[i];
      var z := ZipcodeTable(rs)[i];
      && k.SiteKey?
      && z.site.territory == k.territory && z.site.postalCode == k.postalCode
      && z.site.latitude == k.latitude && z.site.longitude == k.longitude
  {
    ZipcodeTableJoin(rs);
  }

  /** Row `i` of the zipcode table is the `i`-th site present in `rs`, with
      its number of distinct producers (0 for the placeholder site) and the
      totals of its postal code. */
  lemma ZipcodeRowAt(rs: seq<Record>, i: nat)
    requires i < |Keys(BySite, rs)|
    ensures i < |ZipcodeTable(rs)|
    ensures var k := Keys(BySite, rs)[i];
      var z := ZipcodeTable(rs)[i];
      && k.SiteKey?
      && z.site.territory == k.territory && z.site.postalCode == k.postalCode
      && z.site.latitude == k.latitude && z.site.longitude == k.longitude
      && z.site.producers
         == (if IsPlaceholderSite(z.site) then 0
             else |set r | r in Group(BySite, rs, k) :: r.producer|)
      && z.totals == RowFor(ByPostalCode, rs, PostalKey(k.postalCode))
  {
    ZipcodeTableJoin(rs);
    ProducerCountIsDistinctNames(Group(BySite, rs, Keys(BySite, rs)[i]));
  }

  /** Every site of the zipcode table lies in a territory of `rs`. */
  lemma ZipSiteHasRecord(rs: seq<Record>, i: nat)
    requires i < |ZipcodeTable(rs)|
    ensures exists r :: r in rs && r.territory == ZipcodeTable(rs)[i].site.territory
  {
    var ks := Keys(BySite, rs);
    ZipSiteAt(rs, i);
    var t := ZipcodeTable(rs)[i].site.territory;
    assert t == ks[i].territory;
    assert ks[i] in ks;
    KeyHasRecord(BySite, rs, ks[i]);
    var r :| r in rs && KeyOf(BySite, r) == ks[i];
    assert r.territory == t;
  }

  /** Every record has its site in the zipcode table, at the first
      appearance of its site key. */
  lemma RecordHasZipSite(rs: seq<Record>, r: Record)
    requires r in rs
    ensures var i := IndexOf(Keys(BySite, rs), KeyOf(BySite, r));
      i < |ZipcodeTable(rs)| && ZipcodeTable(rs)[i].site.territory == r.territory
  {
    var ks := Keys(BySite, rs);
    var i := IndexOf(ks, KeyOf(BySite, r));
    ZipSiteAt(rs, i);
    var t := ZipcodeTable(rs)[i].site.territory;
    assert t == ks[i].territory;
  }

  /** A zipcode-table row with its territory's colour category. */
  datatype ZipEntry = ZipEntry(row: ZipRow, category: int)

  /** Each row with its territory's category looked up in the category map;
      None stands for the KeyError raised when a territory has no category. */
  function WithCategories(z: seq<ZipRow>, catMap: map<string, int>): (r: Option<seq<ZipEntry>>)
    ensures r.Some? <==> forall i :: 0 <= i < |z| ==> z[i].site.territory in catMap
    ensures r.Some? ==> |r.value| == |z|
    ensures r.Some? ==> forall i :: 0 <= i < |z| ==>
      r.value[i].row == z[i] && r.value[i].category == catMap[z[i].site.territory]
  {
    if forall i :: 0 <= i < |z| ==> z[i].site.territory in catMap then
      Some(seq(|z|, i requires 0 <= i < |z| && z[i].site.territory in catMap =>
        ZipEntry(z[i], catMap[z[i].site.territory])))
    else
      None
  }

  /** `update_zip`: the zipcode table of `rs` with categories. It raises
      exactly when a site's territory has no category; otherwise every site
      is kept, with its postal code's totals and its territory's category. */
  function UpdateZip(rs: seq<Record>, catMap: map<string, int>): (r: Option<seq<ZipEntry>>)
    ensures r.Some? <==>
      forall i :: 0 <= i < |ZipcodeTable(rs)| ==> ZipcodeTable(rs)[i].site.territory in catMap
    ensures r.Some? ==> |r.value| == |Keys(BySite, rs)|
    ensures r.Some? ==> forall i :: 0 <= i < |r.value| ==>
      && r.value[i].row.site.territory in catMap
      && r.value[i].category == catMap[r.value[i].row.site.territory]
      && r.value[i].row.totals == RowFor(ByPostalCode, rs, PostalKey(r.value[i].row.site.postalCode))
  {
    WithCategories(ZipcodeTable(rs), catMap)
  }

  /** `update_zip` succeeds whenever every territory of the table has a
      category. */
  lemma UpdateZipSucceeds(rs: seq<Record>, catMap: map<string, int>)
    requires forall r :: r in rs ==> r.territory in catMap
    ensures UpdateZip(rs, catMap).Some?
  {
    var z := ZipcodeTable(rs);
    forall i | 0 <= i < |z| ensures z[i].site.territory in catMap {
      ZipSiteHasRecord(rs, i);
      var r :| r in rs && r.territory == z[i].site.territory;
    }
  }
}
