/** Clicking a zipcode on the map (`em_app.py`, `toggle_select`): the map's
    hideout remembers at most one highlighted zipcode; clicking it again
    clears it, clicking another one replaces it, and the side table lists
    the clicked zipcode's assets per producer and opportunity type. */
module Selection {
  import opened Seqs
  import opened Records
  import opened Grouping
  import opened Totals
  import opened Hover

  /** One row of the side table. */
  datatype DetailRow = DetailRow(producer: ProducerName, opptyType: OpptyType, totalAssets: int)

  lemma ProducerTypeKeys(g: seq<Record>)
    ensures forall k :: k in Keys(ByProducerType, g) ==> k.ProducerTypeKey?
  {
  }

  function DetailRows(g: seq<Record>, ks: seq<Key>): (rows: seq<DetailRow>)
    requires forall k :: k in ks ==> k.ProducerTypeKey?
    ensures |rows| == |ks|
    ensures forall i :: 0 <= i < |ks| ==>
      && ks[i] == ProducerTypeKey(rows[i].producer, rows[i].opptyType)
      && rows[i].totalAssets == SumOf(Group(ByProducerType, g, ks[i]), Assets)
  {
    assert forall i :: 0 <= i < |ks| ==> ks[i] in ks;
    seq(|ks|, i requires 0 <= i < |ks| =>
      DetailRow(ks[i].producer, ks[i].opptyType, SumOf(Group(ByProducerType, g, ks[i]), Assets)))
  }

  /** `df[df['PostalCode'] == zipcode]` grouped by producer and type, with
      the assets summed; always over the start-up table. Each row holds the
      assets of the zipcode's records with its producer and type. */
  function ZipDetail(df: seq<Record>, zipcode: PostalCode): (rows: seq<DetailRow>)
    ensures forall i :: 0 <= i < |rows| ==>
      rows[i].totalAssets
      == SumOf(Group(ByProducerType, Group(ByPostalCode, df, PostalKey(zipcode)),
                     ProducerTypeKey(rows[i].producer, rows[i].opptyType)), Assets)
  {
    var g := Group(ByPostalCode, df, PostalKey(zipcode));
    ProducerTypeKeys(g);
    DetailRows(g, Keys(ByProducerType, g))
  }

  function DetailSum(rows: seq<DetailRow>): int {
    if rows == [] then 0 else rows[0].totalAssets + DetailSum(rows[1..])
  }

  lemma {:induction false} DetailSumOverKeys(g: seq<Record>, ks: seq<Key>)
    requires forall k :: k in ks ==> k.ProducerTypeKey?
    ensures DetailSum(DetailRows(g, ks)) == SumOverKeys(ByProducerType, ks, g, Assets)
  {
    if ks != [] {
      assert DetailRows(g, ks)[1..] == DetailRows(g, ks[1..]);
      DetailSumOverKeys(g, ks[1..]);
    }
  }

  /** The side table adds up to the zipcode's total opportunity value in
      the postal-code totals. */
  lemma ZipDetailAddsUp(df: seq<Record>, zipcode: PostalCode)
    ensures DetailSum(ZipDetail(df, zipcode))
         == RowFor(ByPostalCode, df, PostalKey(zipcode)).totalOpptyValue
  {
    var g := Group(ByPostalCode, df, PostalKey(zipcode));
    ProducerTypeKeys(g);
    DetailSumOverKeys(g, Keys(ByProducerType, g));
    GroupSumsConserve(ByProducerType, g, Assets);
  }

  /** Each (producer, type) pair of the side table appears once, and every
      record of the zipcode has its pair listed. */
  lemma ZipDetailPairs(df: seq<Record>, zipcode: PostalCode, r: Record)
    ensures forall i, j :: 0 <= i < j < |ZipDetail(df, zipcode)| ==>
      (ZipDetail(df, zipcode)[i].producer, ZipDetail(df, zipcode)[i].opptyType)
      != (ZipDetail(df, zipcode)[j].producer, ZipDetail(df, zipcode)[j].opptyType)
    ensures r in df && r.postalCode == zipcode ==>
      exists i :: 0 <= i < |ZipDetail(df, zipcode)|
        && ZipDetail(df, zipcode)[i].producer == r.producer
        && ZipDetail(df, zipcode)[i].opptyType == r.opptyType
  {
    var g := Group(ByPostalCode, df, PostalKey(zipcode));
    var ks := Keys(ByProducerType, g);
    var rows := ZipDetail(df, zipcode);
    forall i, j | 0 <= i < j < |rows|
      ensures (rows[i].producer, rows[i].opptyType) != (rows[j].producer, rows[j].opptyType)
    {
      assert ks[i] != ks[j];
      assert ks[i] in ks && ks[j] in ks;
    }
    if r in df && r.postalCode == zipcode {
      GroupMembers(ByPostalCode, df, PostalKey(zipcode));
      assert r in g;
      var i := IndexOf(ks, KeyOf(ByProducerType, r));
      assert rows[i].producer == r.producer;
    }
  }

  /** The new selection after a click on `zipcode`: cleared when it was
      selected, exactly that zipcode otherwise. */
  function Toggled(selected: seq<PostalCode>, zipcode: PostalCode): (sel: seq<PostalCode>)
    ensures |sel| <= 1
    ensures zipcode in sel <==> zipcode !in selected
    ensures sel != [] ==> sel == [zipcode]
  {
    if zipcode in selected then [] else [zipcode]
  }

  /** Clicking the same zipcode twice from no selection ends with none;
      clicking two different zipcodes ends with the second alone. */
  lemma ToggleTwice(zipcode: PostalCode, other: PostalCode)
    ensures Toggled(Toggled([], zipcode), zipcode) == []
    ensures other != zipcode ==> Toggled(Toggled([], zipcode), other) == [other]
  {
  }

  /** What the callback returns besides the hideout: nothing to update, or a
      title and the side table (None when cleared). */
  datatype ClickResult = NoChange | Shown(text: string, table: Option<seq<DetailRow>>)

  const DetailTitle: string := "Zipcode Specifics"

  /** The map's hideout property, of which the callback updates `selected`
      in place. */
  class Hideout {
    var selected: seq<PostalCode>

    /** At most one zipcode is ever highlighted. */
    predicate Valid()
      reads this
    {
      |selected| <= 1
    }

    /** The layout starts with nothing highlighted. */
    constructor ()
      ensures selected == [] && Valid()
    {
      selected := [];
    }

    /** `toggle_select`: `clicked` is the clicked point's postal code, None
        when there is no click data. Only this callback writes `selected`,
        so at most one zipcode is ever highlighted. */
    method Click(df: seq<Record>, clicked: Option<PostalCode>) returns (result: ClickResult)
      requires Valid()
      modifies this
      ensures clicked.None? ==> result == NoChange && selected == old(selected)
      ensures clicked.Some? ==> selected == Toggled(old(selected), clicked.value)
      ensures clicked.Some? && clicked.value in old(selected) ==>
        result == Shown(DetailTitle, None)
      ensures clicked.Some? && clicked.value !in old(selected) ==>
        result == Shown(DetailTitle + ": " + PostalText(clicked.value), Some(ZipDetail(df, clicked.value)))
      ensures Valid()
    {
      if clicked.None? {
        return NoChange;
      }
      var zipcode := clicked.value;
      if zipcode in selected {
        selected := [];
        result := Shown(DetailTitle, None);
      } else {
        selected := [zipcode];
        result := Shown(DetailTitle + ": " + PostalText(zipcode), Some(ZipDetail(df, zipcode)));
      }
    }
  }
}
