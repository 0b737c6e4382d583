/** The start-up data (`em_app.py`, `setup_data`) and the one callback that
    recomputes the map and the territory table (`everything_everywhere`):
    a four-way decision over the selected territories, the drawn shapes,
    the edit target and what triggered the call. */
module Orchestrator {
  import opened Seqs
  import opened Records
  import opened Grouping
  import opened Totals
  import opened Zipcodes
  import opened Categories
  import opened Shapes
  import opened Hover
  import opened Reassignment

  /** What `setup_data` computes once: the long table, the category map and
      its territory list, the start-up map points and the start-up
      territory table. */
  datatype Startup = Startup(
    df: seq<Record>,
    uniques: seq<string>,
    catMap: map<string, int>,
    geojsonOg: seq<HoverItem>,
    tblDf: seq<TotalsRow>)

  function TerritoryColumn(z: seq<ZipRow>): (names: seq<string>)
    ensures |names| == |z| && forall i :: 0 <= i < |z| ==> names[i] == z[i].site.territory
  {
    seq(|z|, i requires 0 <= i < |z| => z[i].site.territory)
  }

  /** The zipcode table of the start-up data, each row with the code
      `factorize` gave its territory. */
  function CodedZipTable(df: seq<Record>): (entries: seq<ZipEntry>)
    ensures |entries| == |ZipcodeTable(df)|
  {
    var z := ZipcodeTable(df);
    var codes := Factorize(TerritoryColumn(z)).0;
    seq(|z|, i requires 0 <= i < |z| => ZipEntry(z[i], codes[i]))
  }

  /** `setup_data` over the rows of the file: the dropdown lists each
      territory once, exactly the territories that have a category, and
      there is one map point per site. */
  function Setup(rows: seq<Record>): (s: Startup)
    ensures s.df == Load(rows)
    ensures NoDups(s.uniques)
    ensures forall t :: t in s.catMap <==> t in s.uniques
    ensures |s.geojsonOg| == |Keys(BySite, s.df)|
  {
    var df := Load(rows);
    var names := TerritoryColumn(ZipcodeTable(df));
    Startup(df, Factorize(names).1, CategoryMap(names),
      HoverDicts(CodedZipTable(df)), TotalsTable(ByTerritory, df))
  }

  /** The categories stored at start-up are the ones `update_zip` looks up:
      the start-up map points are `hoverdict(update_zip(df))`. */
  lemma SetupAgreesWithUpdateZip(rows: seq<Record>)
    ensures UpdateZip(Setup(rows).df, Setup(rows).catMap).Some?
    ensures Setup(rows).geojsonOg == HoverDicts(UpdateZip(Setup(rows).df, Setup(rows).catMap).value)
  {
    var df := Load(rows);
    var z := ZipcodeTable(df);
    var names := TerritoryColumn(z);
    var catMap := CategoryMap(names);
    assert Setup(rows).df == df && Setup(rows).catMap == catMap;
    CodesAgree(z, names);
  }

  lemma CodesAgree(z: seq<ZipRow>, names: seq<string>)
    requires names == TerritoryColumn(z)
    ensures WithCategories(z, CategoryMap(names)).Some?
    ensures WithCategories(z, CategoryMap(names)).value
         == seq(|z|, i requires 0 <= i < |z| => ZipEntry(z[i], Factorize(names).0[i]))
  {
    var catMap := CategoryMap(names);
    forall i | 0 <= i < |z| ensures z[i].site.territory in catMap {
      assert names[i] in names;
    }
    forall i | 0 <= i < |z|
      ensures WithCategories(z, catMap).value[i] == ZipEntry(z[i], Factorize(names).0[i])
    {
      CategoryMapMatchesCodes(names, i);
    }
  }

  /** Every territory of the loaded table has a category. */
  lemma SetupCoversTerritories(rows: seq<Record>, r: Record)
    requires r in Load(rows)
    ensures r.territory in Setup(rows).catMap
  {
    var df := Load(rows);
    var names := TerritoryColumn(ZipcodeTable(df));
    RecordHasZipSite(df, r);
    var i := IndexOf(Keys(BySite, df), KeyOf(BySite, r));
    assert names[i] == r.territory;
  }

  /** `res[res['TerritoryName'].isin(selected)]`: the records of the
      selected territories, in table order. */
  function Subset(rs: seq<Record>, selected: seq<string>): (out: seq<Record>)
    ensures forall r :: r in out <==> r in rs && r.territory in selected
  {
    if rs == [] then []
    else if rs[0].territory in selected then [rs[0]] + Subset(rs[1..], selected)
    else Subset(rs[1..], selected)
  }

  /** A selected territory keeps its whole group: its row in the totals of
      the selection is its row in the totals of the whole table. */
  lemma {:induction false} SubsetKeepsGroup(rs: seq<Record>, selected: seq<string>, t: string)
    requires t in selected
    ensures Group(ByTerritory, Subset(rs, selected), TerritoryKey(t)) == Group(ByTerritory, rs, TerritoryKey(t))
  {
    if rs != [] {
      SubsetKeepsGroup(rs[1..], selected, t);
    }
  }

  lemma SubsetKeepsTerritoryRow(rs: seq<Record>, selected: seq<string>, t: string)
    requires t in selected
    ensures RowFor(ByTerritory, Subset(rs, selected), TerritoryKey(t)) == RowFor(ByTerritory, rs, TerritoryKey(t))
  {
    SubsetKeepsGroup(rs, selected, t);
  }

  /** The drawing toolbar output: left alone, or told to clear all shapes. */
  datatype Toolbar = NoUpdate | ClearAll

  /** The four outputs: map points, territory table, toolbar, and the
      options of the edit-target dropdown. */
  datatype Response = Response(
    features: seq<HoverItem>,
    totals: seq<TotalsRow>,
    toolbar: Toolbar,
    options: seq<string>)

  /** A response, or an exception that escapes the callback. */
  datatype Outcome = Ok(response: Response) | CallbackError

  /** The map and table computed over `rs`; `update_zip` raises when some
      territory has no category. */
  function View(rs: seq<Record>, catMap: map<string, int>, selected: seq<string>): (o: Outcome)
    ensures o.Ok? <==> UpdateZip(rs, catMap).Some?
    ensures o.Ok? ==> o.response.options == selected && o.response.toolbar == NoUpdate
  {
    match UpdateZip(rs, catMap)
    case None => CallbackError
    case Some(z) => Ok(Response(HoverDicts(z), TotalsTable(ByTerritory, rs), NoUpdate, selected))
  }

  /** Cases 1 and 3: the selected territories alone, nothing reassigned. */
  function SelectedView(s: Startup, selected: seq<string>): (o: Outcome)
    ensures o.Ok? <==> UpdateZip(Subset(s.df, selected), s.catMap).Some?
    ensures o.Ok? ==> o.response.options == selected && o.response.toolbar == NoUpdate
  {
    View(Subset(s.df, selected), s.catMap, selected)
  }

  /** Case 2: the selected territories with every record inside a drawn
      polygon moved to the target. Building a polygon from malformed
      coordinates raises, and so does a target without a category. */
  function ReassignedView(s: Startup, selected: seq<string>, coords: seq<Json>, target: string,
                          inside: (Point, Ring) -> bool): (o: Outcome)
    ensures OuterRings(coords).None? ==> o == CallbackError
    ensures target !in s.catMap ==> o == CallbackError
    ensures o.Ok? ==> o.response.options == selected && o.response.toolbar == NoUpdate
  {
    var df_ := Subset(s.df, selected);
    match OuterRings(coords)
    case None => CallbackError
    case Some(rings) =>
      if target !in s.catMap then CallbackError
      else View(Reassigned(df_, Mask(df_, rings, inside), target, s.catMap[target]), s.catMap, selected)
  }

  const SelectorTrigger: string := "en_select.value"

  /** `everything_everywhere`. `changed` lists the triggering property ids;
      `inside` is shapely's point-in-polygon test. */
  function Orchestrate(s: Startup, selected: seq<string>, edit: Json, editing: Option<string>,
                       changed: seq<string>, inside: (Point, Ring) -> bool): (o: Outcome)
    ensures o.Ok? ==> edit.JObj? && "features" in edit.fields
    ensures o.Ok? ==> o.response.options == selected
    ensures o.Ok? && o.response.toolbar == ClearAll ==> selected == [] && SelectorTrigger in changed
  {
    var coords := FindGeo(edit);
    var hasCoords := coords.Some? && coords.value != [];
    var target := if editing.Some? && editing.value in selected then editing else None;
    match Subscript(edit, "features")
    case None => CallbackError
    case Some(features) =>
      if !Truthy(features) && selected != [] then
        SelectedView(s, selected)
      else if selected != [] && hasCoords && target.Some? then
        ReassignedView(s, selected, coords.value, target.value, inside)
      else if (selected != [] && !hasCoords) || (selected != [] && target.None?) then
        SelectedView(s, selected)
      else
        Ok(Response(s.geojsonOg, s.tblDf, if SelectorTrigger in changed then ClearAll else NoUpdate, []))
  }

  /** Reading `edit_control['features']` happens outside any `try`: without
      it the callback raises. */
  lemma MissingFeaturesRaise(s: Startup, selected: seq<string>, edit: Json, editing: Option<string>,
                             changed: seq<string>, inside: (Point, Ring) -> bool)
    requires !(edit.JObj? && "features" in edit.fields)
    ensures Orchestrate(s, selected, edit, editing, changed, inside) == CallbackError
  {
  }

  /** An edit target that is not among the selected territories is
      treated as no target at all. */
  lemma StaleTargetIsUnset(s: Startup, selected: seq<string>, edit: Json, t: string,
                           changed: seq<string>, inside: (Point, Ring) -> bool)
    requires t !in selected
    ensures Orchestrate(s, selected, edit, Some(t), changed, inside)
         == Orchestrate(s, selected, edit, None, changed, inside)
  {
  }

  /** Empty features never yield polygon coordinates. */
  lemma FalsyFeaturesHaveNoCoords(edit: Json)
    requires edit.JObj? && "features" in edit.fields && !Truthy(edit.fields["features"])
    ensures FindGeo(edit).None? || FindGeo(edit).value == []
  {
  }

  /** With territories selected, reassignment happens exactly when drawn
      polygons exist and a selected target is set; otherwise the result is
      the selected territories alone (cases 1 and 3 agree). */
  lemma SelectedDispatch(s: Startup, selected: seq<string>, edit: Json, editing: Option<string>,
                         changed: seq<string>, inside: (Point, Ring) -> bool)
    requires selected != [] && edit.JObj? && "features" in edit.fields
    ensures var coords := FindGeo(edit);
      Orchestrate(s, selected, edit, editing, changed, inside)
      == if coords.Some? && coords.value != [] && editing.Some? && editing.value in selected
         then ReassignedView(s, selected, coords.value, editing.value, inside)
         else SelectedView(s, selected)
  {
    if !Truthy(edit.fields["features"]) {
      FalsyFeaturesHaveNoCoords(edit);
    }
  }

  /** With nothing selected the result is the start-up map and table, the
      dropdown is emptied, and the drawings are cleared exactly when the
      territory selector triggered the call. */
  lemma NothingSelected(s: Startup, edit: Json, editing: Option<string>,
                        changed: seq<string>, inside: (Point, Ring) -> bool)
    requires edit.JObj? && "features" in edit.fields
    ensures var o := Orchestrate(s, [], edit, editing, changed, inside);
      && o.Ok?
      && o.response.features == s.geojsonOg
      && o.response.totals == s.tblDf
      && o.response.options == []
      && (o.response.toolbar == ClearAll <==> SelectorTrigger in changed)
  {
  }

  /** The territory table shown for a selection holds, for every selected
      territory present, the same row as the start-up table. */
  lemma SelectionShowsOriginalRows(rows: seq<Record>, selected: seq<string>, t: string)
    requires t in selected
    ensures RowFor(ByTerritory, Subset(Setup(rows).df, selected), TerritoryKey(t))
         == RowFor(ByTerritory, Setup(rows).df, TerritoryKey(t))
  {
    SubsetKeepsTerritoryRow(Setup(rows).df, selected, t);
  }

  /** Selecting territories keeps records of the placeholder's type free of
      value. */
  lemma SubsetCarriesNothing(rs: seq<Record>, selected: seq<string>)
    requires ZeroTypeCarriesNothing(rs)
    ensures ZeroTypeCarriesNothing(Subset(rs, selected))
  {
  }

  /** Every territory table the callback shows, at start-up, for a
      selection or after a reassignment, has Total Opportunity Value equal to
      Type A + Type B + Type C in every row. */
  lemma ShownTotalsAddUp(rows: seq<Record>, selected: seq<string>, edit: Json, editing: Option<string>,
                         changed: seq<string>, inside: (Point, Ring) -> bool, i: nat)
    requires forall r :: r in rows ==> FileRow(r)
    requires Orchestrate(Setup(rows), selected, edit, editing, changed, inside).Ok?
    requires i < |Orchestrate(Setup(rows), selected, edit, editing, changed, inside).response.totals|
    ensures var row := Orchestrate(Setup(rows), selected, edit, editing, changed, inside).response.totals[i];
      row.totalOpptyValue == row.typeA + row.typeB + row.typeC
  {
    var s := Setup(rows);
    LoadedCarriesNothing(rows);
    SubsetCarriesNothing(s.df, selected);
    if selected == [] {
      NothingSelected(s, edit, editing, changed, inside);
      TotalIsSumOfTypes(ByTerritory, s.df, i);
    } else {
      SelectedDispatch(s, selected, edit, editing, changed, inside);
      var coords := FindGeo(edit);
      var df_ := Subset(s.df, selected);
      if coords.Some? && coords.value != [] && editing.Some? && editing.value in selected {
        var t := editing.value;
        var rings := OuterRings(coords.value).value;
        ReassignCarriesNothing(df_, Mask(df_, rings, inside), t, s.catMap[t]);
        TotalIsSumOfTypes(ByTerritory, Reassigned(df_, Mask(df_, rings, inside), t, s.catMap[t]), i);
      } else {
        TotalIsSumOfTypes(ByTerritory, df_, i);
      }
    }
  }

  /** The territory table shown for a selection lists selected territories
      only. */
  lemma SelectedViewShowsSelection(s: Startup, selected: seq<string>, i: nat)
    requires SelectedView(s, selected).Ok?
    requires i < |SelectedView(s, selected).response.totals|
    ensures SelectedView(s, selected).response.totals[i].key.TerritoryKey?
    ensures SelectedView(s, selected).response.totals[i].key.territory in selected
  {
    var df_ := Subset(s.df, selected);
    TotalsRowsArePresentGroups(ByTerritory, df_, i);
  }

  /** When every selected territory has a category, showing the selection
      never raises; its dropdown options are the selection. */
  lemma SelectedViewSucceeds(s: Startup, selected: seq<string>)
    requires forall t :: t in selected ==> t in s.catMap
    ensures SelectedView(s, selected).Ok?
    ensures SelectedView(s, selected).response.options == selected
  {
    UpdateZipSucceeds(Subset(s.df, selected), s.catMap);
  }

  /** Likewise for a reassignment whose polygons are well formed: every
      record ends in a selected territory or the (selected) target. */
  lemma ReassignedViewSucceeds(s: Startup, selected: seq<string>, coords: seq<Json>, target: string,
                               inside: (Point, Ring) -> bool)
    requires forall t :: t in selected ==> t in s.catMap
    requires target in selected
    requires OuterRings(coords).Some?
    ensures ReassignedView(s, selected, coords, target, inside).Ok?
  {
    var df_ := Subset(s.df, selected);
    var mask := Mask(df_, OuterRings(coords).value, inside);
    var out := Reassigned(df_, mask, target, s.catMap[target]);
    forall r | r in out ensures r.territory in s.catMap {
      var i :| 0 <= i < |out| && out[i] == r;
      assert df_[i] in df_;
    }
    UpdateZipSucceeds(out, s.catMap);
  }

  /** At start-up, with the dropdown offering the category map's
      territories, no selection makes the callback raise unless its
      polygons are malformed. */
  lemma StartupSelectionsSucceed(rows: seq<Record>, selected: seq<string>, edit: Json,
                                 editing: Option<string>, changed: seq<string>, inside: (Point, Ring) -> bool)
    requires forall t :: t in selected ==> t in Setup(rows).uniques
    requires edit.JObj? && "features" in edit.fields
    requires FindGeo(edit).Some? ==> OuterRings(FindGeo(edit).value).Some?
    ensures Orchestrate(Setup(rows), selected, edit, editing, changed, inside).Ok?
  {
    var s := Setup(rows);
    assert forall t :: t in selected ==> t in s.catMap;
    if selected != [] {
      SelectedDispatch(s, selected, edit, editing, changed, inside);
      SelectedViewSucceeds(s, selected);
      var coords := FindGeo(edit);
      if coords.Some? && coords.value != [] && editing.Some? && editing.value in selected {
        ReassignedViewSucceeds(s, selected, coords.value, editing.value, inside);
      }
    }
  }
}
