/** The result list and the summary card of the client (public/app.js):
    confToPct, formatBBox, renderResults and updateSummary. */
module Presenter {
  import opened Text
  import opened Fixed
  import opened Detections

  /** confToPct: the confidence times 100 with one decimal and a '%'.
      Number(undefined) is NaN, so an absent confidence prints "NaN%". */
  function ConfToPct(c: Option<real>): (r: string)
    ensures |r| > 0 && r[|r| - 1] == '%'
    ensures c.None? ==> r == "NaN%"
    ensures c.Some? ==> ParseFixed1(r[..|r| - 1]) == Some(SignedTenths(c.value * 100.0))
  {
    match c
    case None => "NaN%"
    case Some(x) =>
      var digits := ToFixed1(x * 100.0);
      Fixed1RoundTrip(x * 100.0);
      assert (digits + "%")[..|digits|] == digits;
      digits + "%"
  }

  /** formatBBox: the four coordinates, each with one decimal, in order. */
  function FormatBBox(b: Box): string {
    "[" + ToFixed1(b.x1) + ", " + ToFixed1(b.y1) + ", " + ToFixed1(b.x2) + ", " + ToFixed1(b.y2) + "]"
  }

  /** A field after a ", " separator: a space, then a one-decimal number. */
  function ParseSpacedFixed1(p: string): Option<int> {
    if |p| > 0 && p[0] == ' ' then ParseFixed1(p[1..]) else None
  }

  /** Reads a formatted box back as its four coordinates in tenths. */
  function ParseBBox(s: string): Option<seq<int>> {
    if |s| < 2 || s[0] != '[' || s[|s| - 1] != ']' then None
    else
      var parts := Split(s[1..|s| - 1], ',');
      if |parts| != 4 then None
      else
        var a, b, c, d := ParseFixed1(parts[0]), ParseSpacedFixed1(parts[1]),
                          ParseSpacedFixed1(parts[2]), ParseSpacedFixed1(parts[3]);
        if a.Some? && b.Some? && c.Some? && d.Some? then Some([a.value, b.value, c.value, d.value])
        else None
  }

  lemma NoComma(f: string)
    requires forall i :: 0 <= i < |f| ==> IsFixedChar(f[i])
    ensures ',' !in f && ',' !in " " + f
  {
    assert forall i :: 0 <= i < |" " + f| ==> (" " + f)[i] != ',';
  }

  /** The text between the brackets of a formatted box splits at its
      commas into the four printed fields. */
  lemma FieldsOfBBox(f1: string, f2: string, f3: string, f4: string)
    requires ',' !in f1 && ',' !in " " + f2 && ',' !in " " + f3 && ',' !in " " + f4
    ensures var s := "[" + f1 + ", " + f2 + ", " + f3 + ", " + f4 + "]";
            Split(s[1..|s| - 1], ',') == [f1, " " + f2, " " + f3, " " + f4]
  {
    var s := "[" + f1 + ", " + f2 + ", " + f3 + ", " + f4 + "]";
    var t3 := " " + f4;
    var t2 := (" " + f3) + [','] + t3;
    var t1 := (" " + f2) + [','] + t2;
    assert s[1..|s| - 1] == f1 + [','] + t1;
    SplitWithoutSep(t3, ',');
    SplitAtSep(" " + f3, ',', t3);
    SplitAtSep(" " + f2, ',', t2);
    SplitAtSep(f1, ',', t1);
  }

  /** The printed box denotes the four coordinates rounded to tenths, in
      the order x1, y1, x2, y2. */
  lemma BBoxRoundTrip(b: Box)
    ensures ParseBBox(FormatBBox(b)) ==
            Some([SignedTenths(b.x1), SignedTenths(b.y1), SignedTenths(b.x2), SignedTenths(b.y2)])
  {
    var f1, f2, f3, f4 := ToFixed1(b.x1), ToFixed1(b.y1), ToFixed1(b.x2), ToFixed1(b.y2);
    NoComma(f1); NoComma(f2); NoComma(f3); NoComma(f4);
    FieldsOfBBox(f1, f2, f3, f4);
    Fixed1RoundTrip(b.x1); Fixed1RoundTrip(b.y1); Fixed1RoundTrip(b.x2); Fixed1RoundTrip(b.y2);
    assert (" " + f2)[1..] == f2 && (" " + f3)[1..] == f3 && (" " + f4)[1..] == f4;
  }

  lemma ConfToPctExample()
    ensures ConfToPct(Some(0.8734)) == "87.3%"
  {
    assert RoundTenths(87.34) == 873;
  }

  lemma FormatBBoxExample()
    ensures FormatBBox(Box(10.0, 20.25, 100.999, 50.0)) == "[10.0, 20.3, 101.0, 50.0]"
  {
    assert RoundTenths(10.0) == 100;
    assert RoundTenths(20.25) == 203;
    assert RoundTenths(100.999) == 1010;
    assert RoundTenths(50.0) == 500;
  }

  /** One entry of the result list: its 1-based number and its three lines
      (name and percentage, class id, formatted box). */
  datatype Row = Row(number: nat, name: string, percent: string, classId: int, bbox: string)

  /** The result container: the empty-state marker alone, or the rows. */
  datatype ResultsView = EmptyMarker | Rows(rows: seq<Row>)

  function RowOf(i: nat, d: Detection): Row {
    Row(i + 1, NameText(d.className), ConfToPct(d.confidence), d.classId, FormatBBox(d.bbox))
  }

  /** What renderResults leaves in the result container. */
  function Results(dets: seq<Detection>): ResultsView {
    if |dets| == 0 then EmptyMarker
    else Rows(seq(|dets|, i requires 0 <= i < |dets| => RowOf(i, dets[i])))
  }

  /** renderResults: one numbered row per detection, appended in order. */
  method RenderResults(dets: seq<Detection>) returns (view: ResultsView)
    ensures view == Results(dets)
  {
    if |dets| == 0 {
      return EmptyMarker;
    }
    var rows: seq<Row> := [];
    for i := 0 to |dets|
      invariant |rows| == i
      invariant forall j :: 0 <= j < i ==> rows[j] == RowOf(j, dets[j])
    {
      rows := rows + [RowOf(i, dets[i])];
    }
    view := Rows(rows);
  }

  /** The result list is the empty marker exactly when there is nothing to
      show; otherwise row k is numbered k + 1 and shows detection k's name,
      percentage, class id and box. */
  lemma ResultsInOrder(dets: seq<Detection>)
    ensures Results(dets).EmptyMarker? <==> |dets| == 0
    ensures Results(dets).Rows? ==>
              |Results(dets).rows| == |dets| &&
              forall k :: 0 <= k < |dets| ==>
                Results(dets).rows[k].number == k + 1 &&
                Results(dets).rows[k].name == NameText(dets[k].className) &&
                Results(dets).rows[k].classId == dets[k].classId &&
                Results(dets).rows[k].bbox == FormatBBox(dets[k].bbox) &&
                Results(dets).rows[k].percent == ConfToPct(dets[k].confidence)
  {
  }

  /** The sort key of updateSummary: `confidence ?? 0`. */
  function SortKey(d: Detection): real {
    d.confidence.GetOr(0.0)
  }

  /** `k` is the detection a stable sort by descending key puts first: its
      key is maximal and every earlier detection's key is smaller. */
  predicate IsFirstMax(dets: seq<Detection>, k: int) {
    && 0 <= k < |dets|
    && (forall j :: 0 <= j < |dets| ==> SortKey(dets[j]) <= SortKey(dets[k]))
    && (forall j :: 0 <= j < k ==> SortKey(dets[j]) < SortKey(dets[k]))
  }

  lemma FirstMaxUnique(dets: seq<Detection>, k1: int, k2: int)
    requires IsFirstMax(dets, k1) && IsFirstMax(dets, k2)
    ensures k1 == k2
  {
    assert SortKey(dets[k1]) == SortKey(dets[k2]);
  }

  /** Reference definition of the top detection. */
  function FirstMax(dets: seq<Detection>): (k: nat)
    requires |dets| > 0
    ensures IsFirstMax(dets, k)
    decreases |dets|
  {
    if |dets| == 1 then 0
    else
      var k := FirstMax(dets[..|dets| - 1]);
      if SortKey(dets[|dets| - 1]) > SortKey(dets[k]) then |dets| - 1 else k
  }

  /** `[...detections].sort(by descending confidence ?? 0)[0]`: the sort is
      stable, so its first element is the earliest detection of maximal key. */
  method TopDetection(dets: seq<Detection>) returns (k: nat)
    requires |dets| > 0
    ensures IsFirstMax(dets, k)
  {
    k := 0;
    for i := 1 to |dets|
      invariant k < i
      invariant forall j :: 0 <= j < i ==> SortKey(dets[j]) <= SortKey(dets[k])
      invariant forall j :: 0 <= j < k ==> SortKey(dets[j]) < SortKey(dets[k])
    {
      if SortKey(dets[i]) > SortKey(dets[k]) {
        k := i;
      }
    }
  }

  /** The summary card: hidden, or the top name, its percentage and the
      number of detections in the list. */
  datatype SummaryView = Hidden | Shown(topName: string, topPercent: string, total: nat)

  function SummaryOf(top: Detection, total: nat): SummaryView {
    Shown(top.className.GetOr("unknown"), ConfToPct(Some(SortKey(top))), total)
  }

  /** What updateSummary shows for a detection list. */
  function Summary(dets: seq<Detection>): SummaryView {
    if |dets| == 0 then Hidden else SummaryOf(dets[FirstMax(dets)], |dets|)
  }

  method UpdateSummary(dets: seq<Detection>) returns (s: SummaryView)
    ensures s == Summary(dets)
    ensures s.Hidden? <==> |dets| == 0
    ensures s.Shown? ==> s.total == |dets| &&
                         exists k :: IsFirstMax(dets, k) && s == SummaryOf(dets[k], |dets|)
  {
    if |dets| == 0 {
      return Hidden;
    }
    var k := TopDetection(dets);
    FirstMaxUnique(dets, k, FirstMax(dets));
    s := SummaryOf(dets[k], |dets|);
  }
}
