/** The zipcode hover labels (`em_app.py`, `hoverdict`): every row of the
    zipcode table becomes a record dict, and a loop adds to each one a
    `tooltip` string listing the postal code, producer count, totals and
    territory. */
module Hover {
  import opened Seqs
  import opened Records
  import opened Totals
  import opened Zipcodes

  predicate IsDigit(c: char) {
    '0' <= c <= '9'
  }

  /** Decimal digits of a natural number, as Python's `str` writes them. */
  function NatText(n: nat): (s: string)
    ensures |s| >= 1
    decreases n
  {
    if n < 10 then [('0' as int + n) as char]
    else NatText(n / 10) + [('0' as int + n % 10) as char]
  }

  /** An integer in decimal, with a leading '-' when negative. */
  function IntText(n: int): (s: string)
    ensures |s| >= 1
  {
    if n < 0 then "-" + NatText(-n) else NatText(n)
  }

  /** Reading a string of digits back as a number. */
  function ParseNat(s: string): nat
    requires forall i :: 0 <= i < |s| ==> IsDigit(s[i])
    decreases |s|
  {
    if s == [] then 0
    else
      assert IsDigit(s[|s| - 1]);
      ParseNat(s[..|s| - 1]) * 10 + (s[|s| - 1] as int - '0' as int)
  }

  function ParseInt(s: string): int
    requires |s| >= 1
    requires forall i :: 1 <= i < |s| ==> IsDigit(s[i])
    requires s[0] == '-' || IsDigit(s[0])
  {
    if s[0] == '-' then -(ParseNat(s[1..]) as int) else ParseNat(s)
  }

  /** Only digits, and no leading zero except in "0" itself. */
  lemma {:induction false} NatTextDigits(n: nat)
    ensures forall i :: 0 <= i < |NatText(n)| ==> IsDigit(NatText(n)[i])
    ensures NatText(n)[0] == '0' ==> n == 0
    decreases n
  {
    if n >= 10 {
      NatTextDigits(n / 10);
    }
  }

  lemma {:induction false} ParseNatText(n: nat)
    ensures forall i :: 0 <= i < |NatText(n)| ==> IsDigit(NatText(n)[i])
    ensures ParseNat(NatText(n)) == n
    decreases n
  {
    NatTextDigits(n);
    if n >= 10 {
      var s := NatText(n);
      assert s[..|s| - 1] == NatText(n / 10);
      ParseNatText(n / 10);
    }
  }

  /** The number in a label reads back as the number it shows. */
  lemma IntTextRoundTrip(n: int)
    ensures forall i :: 1 <= i < |IntText(n)| ==> IsDigit(IntText(n)[i])
    ensures IntText(n)[0] == '-' || IsDigit(IntText(n)[0])
    ensures IntText(n)[0] == '-' <==> n < 0
    ensures ParseInt(IntText(n)) == n
  {
    NatTextDigits(if n < 0 then -n else n);
    if n < 0 {
      assert IntText(n)[1..] == NatText(-n);
      ParseNatText(-n);
    } else {
      ParseNatText(n);
    }
  }

  /** `x` is an integer's decimal text and reads back as `v`. */
  predicate ShowsNumber(x: string, v: int) {
    && |x| >= 1
    && (x[0] == '-' || IsDigit(x[0]))
    && (forall i :: 1 <= i < |x| ==> IsDigit(x[i]))
    && ParseInt(x) == v
  }

  /** Different numbers are shown differently. */
  lemma IntTextInjective(a: int, b: int)
    requires IntText(a) == IntText(b)
    ensures a == b
  {
    IntTextRoundTrip(a);
    IntTextRoundTrip(b);
  }

  /** How a postal code prints: the file's string, or the placeholder's 0. */
  function PostalText(p: PostalCode): string {
    match p
    case Code(t) => t
    case ZeroCode => "0"
  }

  /** The fixed text of a label. */
  const ZipOpen: string := "<b>ZIP: "
  const BoldClose: string := "</b>,</br>"
  const LineBreak: string := ",</br>"
  const ProducerLabel: string := "Producer Count: "
  const ValueLabel: string := "Total Opportunity Value: "
  const CountLabel: string := "Total Opportunity Count: "
  const TypeALabel: string := "Type A: "
  const TypeBLabel: string := "Type B: "
  const TypeCLabel: string := "Type C: "
  const TerritoryOpen: string := "<b>Territory Name: ("
  const TerritoryClose: string := ")</b>"

  /** The opening of a label: the postal code in bold. */
  function TooltipHead(site: SiteRow): string {
    ZipOpen + PostalText(site.postalCode) + BoldClose
  }

  /** The closing of a label: the territory name in brackets, in bold. */
  function TooltipTail(site: SiteRow): string {
    TerritoryOpen + site.territory + TerritoryClose
  }

  /** One line of a label: its caption, the number, a line break. */
  function Line(caption: string, value: int): string {
    caption + IntText(value) + LineBreak
  }

  /** The lines of a label that come from the postal-code totals. */
  function TotalsLines(t: TotalsRow): string {
    Line(ValueLabel, t.totalOpptyValue) + Line(CountLabel, t.totalOpptyCount)
    + Line(TypeALabel, t.typeA) + Line(TypeBLabel, t.typeB) + Line(TypeCLabel, t.typeC)
  }

  /** The numbers of a label, each on a line of its own: the producer count
      first, then the totals. */
  function TooltipBody(site: SiteRow, t: TotalsRow): string {
    Line(ProducerLabel, site.producers) + TotalsLines(t)
  }

  /** The label text of one zipcode-table row. It opens with the postal code
      in bold and closes with the territory name in brackets, in bold. */
  function Tooltip(e: ZipEntry): (s: string)
    ensures var head := ZipOpen + PostalText(e.row.site.postalCode) + BoldClose;
      |head| <= |s| && s[..|head|] == head
    ensures var tail := TerritoryOpen + e.row.site.territory + TerritoryClose;
      |tail| <= |s| && s[|s| - |tail|..] == tail
  {
    var head, body, tail := TooltipHead(e.row.site), TooltipBody(e.row.site, e.row.totals), TooltipTail(e.row.site);
    Framed(head, body, tail);
    head + body + tail
  }

  lemma Framed(head: string, body: string, tail: string)
    ensures (head + body + tail)[..|head|] == head
    ensures (head + body + tail)[|head + body + tail| - |tail|..] == tail
  {
    assert head + body + tail == head + (body + tail);
  }

  /** Where the pieces of a line sit in `head + (line + rest) + tail`. */
  lemma LineSlices(head: string, caption: string, x: string, brk: string, rest: string, tail: string)
    ensures var s := (head + (caption + x + brk + rest)) + tail;
      var start := |head| + |caption|;
      && start + |x| + |brk| <= |s|
      && s[start - |caption|..start] == caption
      && s[start..start + |x|] == x
      && s[start + |x|..start + |x| + |brk|] == brk
  {
    var s := (head + (caption + x + brk + rest)) + tail;
    var start := |head| + |caption|;
    assert forall k :: 0 <= k < |caption| ==> s[|head| + k] == caption[k];
    assert forall k :: 0 <= k < |x| ==> s[start + k] == x[k];
    assert forall k :: 0 <= k < |brk| ==> s[start + |x| + k] == brk[k];
  }

  /** A label, cut around its producer-count line. */
  lemma TooltipParts(e: ZipEntry)
    ensures Tooltip(e)
         == (TooltipHead(e.row.site)
             + (ProducerLabel + IntText(e.row.site.producers) + LineBreak + TotalsLines(e.row.totals)))
          + TooltipTail(e.row.site)
  {
  }

  /** A rendered integer is the decimal text of that integer. */
  lemma IntTextShows(v: int)
    ensures ShowsNumber(IntText(v), v)
  {
    IntTextRoundTrip(v);
  }

  /** The producer count follows the bold postal code and its label; the
      text there is the count's digits, read back as the count, and a line
      break follows it. */
  lemma TooltipShowsProducers(e: ZipEntry)
    ensures var s := Tooltip(e);
      var start := |TooltipHead(e.row.site)| + |ProducerLabel|;
      var n := IntText(e.row.site.producers);
      && start + |n| + |LineBreak| <= |s|
      && s[start - |ProducerLabel|..start] == ProducerLabel
      && s[start..start + |n|] == n
      && s[start + |n|..start + |n| + |LineBreak|] == LineBreak
      && ShowsNumber(s[start..start + |n|], e.row.site.producers)
  {
    var site := e.row.site;
    TooltipParts(e);
    LineSlices(TooltipHead(site), ProducerLabel, IntText(site.producers), LineBreak,
      TotalsLines(e.row.totals), TooltipTail(site));
    IntTextShows(site.producers);
  }

  /** One hover dict: the zipcode-table row (with its category) and, once
      the loop has visited it, its tooltip. */
  datatype HoverItem = HoverItem(entry: ZipEntry, tooltip: Option<string>)

  /** The dicts `hoverdict` returns: every row in order, each with its label. */
  function HoverDicts(zipdf: seq<ZipEntry>): (dicts: seq<HoverItem>)
    ensures |dicts| == |zipdf|
    ensures forall i :: 0 <= i < |zipdf| ==> dicts[i] == HoverItem(zipdf[i], Some(Tooltip(zipdf[i])))
  {
    seq(|zipdf|, i requires 0 <= i < |zipdf| => HoverItem(zipdf[i], Some(Tooltip(zipdf[i]))))
  }

  /** `hoverdict`: the records of the table, then the loop that labels
      each dict in place. */
  method HoverDictLoop(zipdf: seq<ZipEntry>) returns (dicts: array<HoverItem>)
    ensures fresh(dicts)
    ensures dicts[..] == HoverDicts(zipdf)
  {
    dicts := new HoverItem[|zipdf|](i requires 0 <= i < |zipdf| => HoverItem(zipdf[i], None));
    SetLabels(dicts, Tooltip);
  }

  /** The loop of `hoverdict`: `item["tooltip"] = label(item)` for every
      dict, in place. */
  method SetLabels(dicts: array<HoverItem>, labelOf: ZipEntry -> string)
    modifies dicts
    ensures forall i :: 0 <= i < dicts.Length ==>
      dicts[i] == HoverItem(old(dicts[i]).entry, Some(labelOf(old(dicts[i]).entry)))
  {
    for n := 0 to dicts.Length
      invariant forall i :: 0 <= i < n ==>
        dicts[i] == HoverItem(old(dicts[i]).entry, Some(labelOf(old(dicts[i]).entry)))
      invariant forall i :: n <= i < dicts.Length ==> dicts[i] == old(dicts[i])
    {
      var item := dicts[n];
      dicts[n] := item.(tooltip := Some(labelOf(item.entry)));
    }
  }
}
