/** Reassignment of drawn areas (`em_app.py`, `everything_everywhere`): a
    record is selected when its (longitude, latitude) point lies inside at
    least one drawn polygon, and every selected record is moved to the edit
    target's territory and category. The point-in-polygon test itself is
    shapely's and is a parameter here. */
module Reassignment {
  import opened Seqs
  import opened Records
  import opened Grouping
  import opened Totals
  import opened Shapes

  /** `points_from_xy(Longitude, Latitude)`. */
  function Location(r: Record): Point {
    Point(r.longitude, r.latitude)
  }

  /** A point inside at least one of the rings. */
  predicate InsideAny(p: Point, rings: seq<Ring>, inside: (Point, Ring) -> bool) {
    exists j :: 0 <= j < |rings| && inside(p, rings[j])
  }

  /** The intersection mask as a value: one flag per record. */
  function Mask(rs: seq<Record>, rings: seq<Ring>, inside: (Point, Ring) -> bool): (mask: seq<bool>)
    ensures |mask| == |rs|
  {
    seq(|rs|, i requires 0 <= i < |rs| => InsideAny(Location(rs[i]), rings, inside))
  }

  /** The intersection mask: one test per polygon over every record, then
      the OR across polygons (`np.array(intersections).any(0)`). */
  method IntersectionMask(rs: seq<Record>, rings: seq<Ring>, inside: (Point, Ring) -> bool)
    returns (mask: seq<bool>)
    ensures |mask| == |rs|
    ensures forall i :: 0 <= i < |rs| ==> (mask[i] <==> InsideAny(Location(rs[i]), rings, inside))
    ensures mask == Mask(rs, rings, inside)
  {
    mask := seq(|rs|, _ => false);
    for j := 0 to |rings|
      invariant |mask| == |rs|
      invariant forall i :: 0 <= i < |rs| ==>
        (mask[i] <==> exists j' :: 0 <= j' < j && inside(Location(rs[i]), rings[j']))
    {
      for i := 0 to |rs|
        invariant |mask| == |rs|
        invariant forall i' :: 0 <= i' < i ==>
          (mask[i'] <==> exists j' :: 0 <= j' < j + 1 && inside(Location(rs[i']), rings[j']))
        invariant forall i' :: i <= i' < |rs| ==>
          (mask[i'] <==> exists j' :: 0 <= j' < j && inside(Location(rs[i']), rings[j']))
      {
        if inside(Location(rs[i]), rings[j]) {
          mask := mask[i := true];
        }
      }
    }
  }

  /** A record moved to territory `target` with category `category`. */
  function Moved(r: Record, target: string, category: int): Record {
    r.(territory := target, category := Some(category))
  }

  /** The table after the two masked writes: masked records moved, the
      others as they were. */
  function Reassigned(rs: seq<Record>, mask: seq<bool>, target: string, category: int): (out: seq<Record>)
    requires |mask| == |rs|
    ensures |out| == |rs|
  {
    seq(|rs|, i requires 0 <= i < |rs| => if mask[i] then Moved(rs[i], target, category) else rs[i])
  }

  /** The in-place writes `df_.loc[mask, 'TerritoryName'] = target` and
      `df_.loc[mask, 'category'] = category`, one column after the other. */
  method ReassignInPlace(df: array<Record>, mask: seq<bool>, target: string, category: int)
    requires |mask| == df.Length
    modifies df
    ensures df[..] == Reassigned(old(df[..]), mask, target, category)
  {
    for i := 0 to df.Length
      invariant forall k :: 0 <= k < df.Length ==>
        df[k] == if k < i && mask[k] then old(df[k]).(territory := target) else old(df[k])
    {
      if mask[i] {
        df[i] := df[i].(territory := target);
      }
    }
    for i := 0 to df.Length
      invariant forall k :: 0 <= k < df.Length ==>
        df[k] == if mask[k] then (if k < i then Moved(old(df[k]), target, category)
                                  else old(df[k]).(territory := target))
                 else old(df[k])
    {
      if mask[i] {
        df[i] := df[i].(category := Some(category));
      }
    }
  }

  /** Frame: a masked record is in the target territory with the target's
      category and is otherwise unchanged; an unmasked record is unchanged. */
  lemma ReassignFrame(rs: seq<Record>, mask: seq<bool>, target: string, category: int, i: nat)
    requires |mask| == |rs| && i < |rs|
    ensures var r, r' := rs[i], Reassigned(rs, mask, target, category)[i];
      if mask[i] then
        && r'.territory == target && r'.category == Some(category)
        && r'.producer == r.producer && r'.opptyType == r.opptyType
        && r'.totalAssets == r.totalAssets && r'.postalCode == r.postalCode
        && r'.latitude == r.latitude && r'.longitude == r.longitude
      else r' == r
  {
  }

  /** Reassigning again with the same mask changes nothing more. */
  lemma ReassignIdempotent(rs: seq<Record>, mask: seq<bool>, target: string, category: int)
    requires |mask| == |rs|
    ensures Reassigned(Reassigned(rs, mask, target, category), mask, target, category)
         == Reassigned(rs, mask, target, category)
  {
  }

  /** Every masked record ends up in the target territory's group. */
  lemma MaskedJoinTarget(rs: seq<Record>, mask: seq<bool>, target: string, category: int, i: nat)
    requires |mask| == |rs| && i < |rs| && mask[i]
    ensures Reassigned(rs, mask, target, category)[i]
         in Group(ByTerritory, Reassigned(rs, mask, target, category), TerritoryKey(target))
  {
    var out := Reassigned(rs, mask, target, category);
    GroupMembers(ByTerritory, out, TerritoryKey(target));
    assert out[i] in out;
  }

  /** Reassignment changes neither types nor assets: a table whose
      placeholder-type records carry no value still has none afterwards. */
  lemma ReassignCarriesNothing(rs: seq<Record>, mask: seq<bool>, target: string, category: int)
    requires |mask| == |rs| && ZeroTypeCarriesNothing(rs)
    ensures ZeroTypeCarriesNothing(Reassigned(rs, mask, target, category))
  {
    var out := Reassigned(rs, mask, target, category);
    forall r | r in out && r.opptyType == ZeroType ensures r.totalAssets == 0 {
      var i :| 0 <= i < |out| && out[i] == r;
      assert rs[i] in rs;
    }
  }

  /** Two tables that agree record by record on the grouping key and on what
      sums count. */
  predicate SameWeights(a: seq<Record>, b: seq<Record>, level: Level) {
    && |a| == |b|
    && forall i :: 0 <= i < |a| ==>
         && KeyOf(level, a[i]) == KeyOf(level, b[i])
         && a[i].totalAssets == b[i].totalAssets
         && a[i].opptyType == b[i].opptyType
  }

  lemma {:induction false} SameWeightsTail(a: seq<Record>, b: seq<Record>, level: Level)
    requires a != [] && SameWeights(a, b, level)
    ensures SameWeights(a[1..], b[1..], level)
  {
    assert forall i :: 0 <= i < |a| - 1 ==> a[1..][i] == a[i + 1] && b[1..][i] == b[i + 1];
  }

  lemma {:induction false} GroupSumsAgree(a: seq<Record>, b: seq<Record>, level: Level, k: Key, m: Measure)
    requires SameWeights(a, b, level)
    ensures SumOf(Group(level, a, k), m) == SumOf(Group(level, b, k), m)
    decreases |a|
  {
    if a != [] {
      SameWeightsTail(a, b, level);
      GroupSumsAgree(a[1..], b[1..], level, k, m);
      var ga, gb := Group(level, a, k), Group(level, b, k);
      if KeyOf(level, a[0]) == k {
        assert ga[1..] == Group(level, a[1..], k);
        assert gb[1..] == Group(level, b[1..], k);
      }
    }
  }

  lemma KeysAgree(a: seq<Record>, b: seq<Record>, level: Level)
    requires SameWeights(a, b, level)
    ensures Keys(level, a) == Keys(level, b)
  {
    assert KeyColumn(level, a) == KeyColumn(level, b);
  }

  /** Tables that agree on keys and weights have the same totals table. */
  lemma TotalsAgree(a: seq<Record>, b: seq<Record>, level: Level)
    requires TotalsLevel(level) && SameWeights(a, b, level)
    ensures TotalsTable(level, a) == TotalsTable(level, b)
  {
    KeysAgree(a, b, level);
    var ks := Keys(level, a);
    forall i | 0 <= i < |ks|
      ensures RowFor(level, a, ks[i]) == RowFor(level, b, ks[i])
    {
      GroupSumsAgree(a, b, level, ks[i], Assets);
      GroupSumsAgree(a, b, level, ks[i], AssetsOfType(TypeA));
      GroupSumsAgree(a, b, level, ks[i], AssetsOfType(TypeB));
      GroupSumsAgree(a, b, level, ks[i], AssetsOfType(TypeC));
      GroupSumsAgree(a, b, level, ks[i], Rows);
    }
  }

  /** Reassignment moves records between territories and never touches
      postal codes: the postal-code totals (and so the totals every zipcode
      row shows) are the same before and after. */
  lemma ReassignKeepsPostalTotals(rs: seq<Record>, mask: seq<bool>, target: string, category: int)
    requires |mask| == |rs|
    ensures TotalsTable(ByPostalCode, Reassigned(rs, mask, target, category))
         == TotalsTable(ByPostalCode, rs)
  {
    TotalsAgree(Reassigned(rs, mask, target, category), rs, ByPostalCode);
  }

  lemma {:induction false} SumOfAgree(a: seq<Record>, b: seq<Record>, m: Measure)
    requires SameWeights(a, b, ByPostalCode)
    ensures SumOf(a, m) == SumOf(b, m)
    decreases |a|
  {
    if a != [] {
      SameWeightsTail(a, b, ByPostalCode);
      SumOfAgree(a[1..], b[1..], m);
    }
  }

  /** Reassignment conserves value: every value column of the territory
      totals adds up to the same amount before and after. */
  lemma ReassignConservesValue(rs: seq<Record>, mask: seq<bool>, target: string, category: int, col: Column)
    requires |mask| == |rs| && col != CountColumn
    ensures ColumnSum(TotalsTable(ByTerritory, Reassigned(rs, mask, target, category)), col)
         == ColumnSum(TotalsTable(ByTerritory, rs), col)
  {
    var out := Reassigned(rs, mask, target, category);
    TotalsConserve(ByTerritory, out, col);
    TotalsConserve(ByTerritory, rs, col);
    SumOfAgree(out, rs, MeasureOf(col));
  }
}
