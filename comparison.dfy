/** The comparison view (pages/Comparison.tsx): which records it shows, the
    five-axis radar rows it builds from them and the series colours. The
    removal button is `Selection.ComparisonList.Remove`. */
module Comparison {
  import opened Common
  import opened Types
  import Selection

  /** `states.filter(s => ids.includes(s.id))`: the catalog records whose id
      is selected, in catalog order. */
  function SelectedStates(states: seq<StateProfile>, ids: seq<string>): (r: seq<StateProfile>)
    ensures forall s :: s in r <==> s in states && s.id in ids
    ensures forall s :: multiset(r)[s] == if s.id in ids then multiset(states)[s] else 0
    ensures SubsequenceOf(r, states)
  {
    if states == [] then []
    else
      var rest := SelectedStates(states[1..], ids);
      assert states == [states[0]] + states[1..];
      SubsequenceCons(states[0], rest, states[1..]);
      if states[0].id in ids then [states[0]] + rest else rest
  }

  /** Only which catalog ids are selected matters: neither the order of the
      selection nor ids that no record carries change the records shown. */
  lemma {:induction false} SelectionDependsOnlyOnCatalogIds(states: seq<StateProfile>, ids1: seq<string>, ids2: seq<string>)
    requires forall i :: 0 <= i < |states| ==> (states[i].id in ids1 <==> states[i].id in ids2)
    ensures SelectedStates(states, ids1) == SelectedStates(states, ids2)
  {
    if states != [] {
      assert states[0].id in ids1 <==> states[0].id in ids2;
      SelectionDependsOnlyOnCatalogIds(states[1..], ids1, ids2);
    }
  }

  /** The ids of the selected records. */
  function SelectedIds(states: seq<StateProfile>, ids: seq<string>): set<string> {
    set s | s in states && s.id in ids :: s.id
  }

  /** With unique ids the view shows one record per selected catalog id. */
  lemma {:induction false} SelectedCountIsIdCount(states: seq<StateProfile>, ids: seq<string>)
    requires UniqueIds(states)
    ensures |SelectedStates(states, ids)| == |SelectedIds(states, ids)|
  {
    if states != [] {
      assert UniqueIds(states[1..]);
      SelectedCountIsIdCount(states[1..], ids);
      SelectedIdsCons(states, ids);
      HeadIdNotInTail(states, ids);
    }
  }

  lemma SelectedIdsCons(states: seq<StateProfile>, ids: seq<string>)
    requires states != []
    ensures SelectedIds(states, ids)
         == SelectedIds(states[1..], ids) + (if states[0].id in ids then {states[0].id} else {})
  {
    assert forall s :: s in states <==> s == states[0] || s in states[1..];
  }

  lemma HeadIdNotInTail(states: seq<StateProfile>, ids: seq<string>)
    requires states != [] && UniqueIds(states)
    ensures states[0].id !in SelectedIds(states[1..], ids)
  {
    forall s | s in states[1..]
      ensures s.id != states[0].id
    {
      var k :| 0 <= k < |states[1..]| && states[1..][k] == s;
      assert states[k + 1] == s;
    }
  }

  lemma {:induction false} SetOfSeqCard(ids: seq<string>)
    ensures |set x | x in ids| <= |ids|
  {
    if ids != [] {
      SetOfSeqCard(ids[1..]);
      assert (set x | x in ids) == (set x | x in ids[1..]) + {ids[0]};
    }
  }

  lemma SubsetCard(a: set<string>, b: set<string>)
    requires a <= b
    ensures |a| <= |b|
  {
    assert b == a + (b - a);
  }

  /** With unique catalog ids, the view never shows more records than there
      are selected ids, hence at most three for a valid selection. */
  lemma SeriesCountBounded(states: seq<StateProfile>, ids: seq<string>)
    requires UniqueIds(states)
    ensures |SelectedStates(states, ids)| <= |ids|
    ensures Selection.Valid(ids) ==> |SelectedStates(states, ids)| <= Selection.MaxSelected
  {
    SelectedCountIsIdCount(states, ids);
    SubsetCard(SelectedIds(states, ids), set x | x in ids);
    SetOfSeqCard(ids);
  }

  /** `colors`: primary, secondary, indigo, three different colours. */
  function Colours(): (c: seq<string>)
    ensures |c| == 3
    ensures c[0] != c[1] && c[0] != c[2] && c[1] != c[2]
  {
    var c := ["#0f766e", "#f59e0b", "#6366f1"];
    assert c[0][1] == '0' && c[1][1] == 'f' && c[2][1] == '6';
    c
  }

  /** `colors[idx % colors.length]`: the colour of the series at position
      `idx`. */
  function SeriesColour(idx: nat): (c: string)
    ensures c in Colours()
  {
    Colours()[idx % 3]
  }

  /** Colours cycle with period three, and three consecutive positions get
      three different colours. */
  lemma SeriesColourCycle(idx: nat)
    ensures SeriesColour(idx + 3) == SeriesColour(idx)
    ensures SeriesColour(idx) != SeriesColour(idx + 1)
    ensures SeriesColour(idx) != SeriesColour(idx + 2)
  {
    assert (idx + 3) % 3 == idx % 3;
    assert (idx + 1) % 3 == (idx % 3 + 1) % 3;
    assert (idx + 2) % 3 == (idx % 3 + 2) % 3;
  }

  /** On a valid selection every plotted series has its own colour. */
  lemma DistinctSeriesColours(states: seq<StateProfile>, ids: seq<string>)
    requires UniqueIds(states) && Selection.Valid(ids)
    ensures forall i: nat, j: nat :: i < j < |SelectedStates(states, ids)| ==> SeriesColour(i) != SeriesColour(j)
  {
    SeriesCountBounded(states, ids);
    forall i: nat, j: nat | i < j < |SelectedStates(states, ids)|
      ensures SeriesColour(i) != SeriesColour(j)
    {
      FirstColoursDistinct(i, j);
    }
  }

  lemma FirstColoursDistinct(i: nat, j: nat)
    requires i < j < 3
    ensures SeriesColour(i) != SeriesColour(j)
  {
  }

  /** One axis of the radar chart. */
  datatype RadarDim = RadarDim(subject: string, fullMark: real)

  /** `radarData`: the five axes in order, each with a maximum of 10 and a
      name of its own. */
  function RadarData(): (d: seq<RadarDim>)
    ensures |d| == 5
    ensures forall k :: 0 <= k < |d| ==> d[k].fullMark == 10.0
    ensures forall k, m :: 0 <= k < m < |d| ==> d[k].subject != d[m].subject
  {
    var d := [
      RadarDim("Safety", 10.0),
      RadarDim("Civic Sense", 10.0),
      RadarDim("Hospitality", 10.0),
      RadarDim("Infrastructure", 10.0),
      RadarDim("Culture", 10.0)
    ];
    assert d[0].subject[0] == 'S' && d[1].subject[0] == 'C' && d[2].subject[0] == 'H';
    assert d[3].subject[0] == 'I' && d[4].subject[0] == 'C' && d[1].subject[1] != d[4].subject[1];
    d
  }

  /** The score a record plots on the axis named `subject`; 0 for a subject
      that names no axis. */
  function ScoreFor(subject: string, s: StateProfile): (v: real)
    ensures ScoresInRange(s) ==> 0.0 <= v <= 10.0
  {
    if subject == "Safety" then s.womenSafetyScore
    else if subject == "Civic Sense" then s.civicSenseScore
    else if subject == "Hospitality" then s.hospitalityScore
    else if subject == "Infrastructure" then s.infrastructureScore
    else if subject == "Culture" then s.culturalRichnessScore
    else 0.0
  }

  /** Each axis plots its own score field. */
  lemma RadarAxesPlotFields(s: StateProfile)
    ensures ScoreFor(RadarData()[0].subject, s) == s.womenSafetyScore
    ensures ScoreFor(RadarData()[1].subject, s) == s.civicSenseScore
    ensures ScoreFor(RadarData()[2].subject, s) == s.hospitalityScore
    ensures ScoreFor(RadarData()[3].subject, s) == s.infrastructureScore
    ensures ScoreFor(RadarData()[4].subject, s) == s.culturalRichnessScore
  {
    assert RadarData()[1].subject != "Safety";
    assert RadarData()[2].subject != "Safety" && RadarData()[2].subject != "Civic Sense";
    assert RadarData()[3].subject != "Safety" && RadarData()[3].subject != "Civic Sense";
    assert RadarData()[3].subject != "Hospitality";
    assert RadarData()[4].subject != "Safety" && RadarData()[4].subject != "Civic Sense";
    assert RadarData()[4].subject != "Hospitality" && RadarData()[4].subject != "Infrastructure";
  }

  /** One row of `chartData`: the axis name and one value per record name. */
  datatype ChartRow = ChartRow(subject: string, values: map<string, real>)

  /** No record of `sel` after position `i` and before `n` has the name of
      `sel[i]`; with `n == |sel|`, the row keeps the value of `sel[i]` (a later
      record of the same name overwrites it). */
  predicate LastWithName(sel: seq<StateProfile>, i: nat, n: nat)
    requires i < n <= |sel|
  {
    forall j :: i < j < n ==> sel[j].name != sel[i].name
  }

  function NamesOf(sel: seq<StateProfile>): set<string> {
    set s | s in sel :: s.name
  }

  lemma NamesOfAppend(sel: seq<StateProfile>, s: StateProfile)
    ensures NamesOf(sel + [s]) == NamesOf(sel) + {s.name}
  {
    assert forall t :: t in sel + [s] <==> t in sel || t == s;
  }

  predicate RowMatches(row: ChartRow, subject: string, sel: seq<StateProfile>) {
    && row.subject == subject
    && row.values.Keys == NamesOf(sel)
    && forall i :: 0 <= i < |sel| && LastWithName(sel, i, |sel|) ==>
         row.values[sel[i].name] == ScoreFor(subject, sel[i])
  }

  /** The row values after the first `n` records have been written. */
  predicate RowPrefix(values: map<string, real>, subject: string, sel: seq<StateProfile>, n: nat)
    requires n <= |sel|
  {
    && values.Keys == NamesOf(sel[..n])
    && forall k :: 0 <= k < n && LastWithName(sel, k, n) ==>
         values[sel[k].name] == ScoreFor(subject, sel[k])
  }

  /** Writing the next record's score keeps the prefix description. */
  lemma RowPrefixStep(values: map<string, real>, subject: string, sel: seq<StateProfile>, n: nat)
    requires n < |sel| && RowPrefix(values, subject, sel, n)
    ensures RowPrefix(values[sel[n].name := ScoreFor(subject, sel[n])], subject, sel, n + 1)
  {
    var next := values[sel[n].name := ScoreFor(subject, sel[n])];
    forall k | 0 <= k < n + 1 && LastWithName(sel, k, n + 1)
      ensures next[sel[k].name] == ScoreFor(subject, sel[k])
    {
      if k < n {
        assert sel[n].name != sel[k].name;
        assert LastWithName(sel, k, n);
      }
    }
    assert sel[..n + 1] == sel[..n] + [sel[n]];
    NamesOfAppend(sel[..n], sel[n]);
  }

  /** One `radarData.map` step: the row object filled by
      `selectedStates.forEach`, keyed by record name. */
  method BuildRow(subject: string, sel: seq<StateProfile>) returns (row: ChartRow)
    ensures RowMatches(row, subject, sel)
  {
    var values: map<string, real> := map[];
    var i := 0;
    while i < |sel|
      invariant 0 <= i <= |sel|
      invariant RowPrefix(values, subject, sel, i)
    {
      RowPrefixStep(values, subject, sel, i);
      values := values[sel[i].name := ScoreFor(subject, sel[i])];
      i := i + 1;
    }
    assert sel[..|sel|] == sel;
    row := ChartRow(subject, values);
  }

  /** Every row of the chart, in axis order, holds the record's score for
      that axis. */
  predicate ChartMatches(rows: seq<ChartRow>, sel: seq<StateProfile>) {
    |rows| == |RadarData()| &&
    forall k :: 0 <= k < |rows| ==> RowMatches(rows[k], RadarData()[k].subject, sel)
  }

  /** `chartData`: one row per radar axis. */
  method ChartData(sel: seq<StateProfile>) returns (rows: seq<ChartRow>)
    ensures ChartMatches(rows, sel)
  {
    rows := [];
    var k := 0;
    while k < |RadarData()|
      invariant 0 <= k <= |RadarData()|
      invariant |rows| == k
      invariant forall m :: 0 <= m < k ==> RowMatches(rows[m], RadarData()[m].subject, sel)
    {
      var row := BuildRow(RadarData()[k].subject, sel);
      rows := rows + [row];
      k := k + 1;
    }
  }

  /** What the comparison route renders. */
  datatype ComparisonView =
    | Loading
    | NoneSelected
    | Compared(selected: seq<StateProfile>, chart: seq<ChartRow>)

  /** The branches of the comparison page: loading first, then the empty
      selection, then the table and the chart. */
  method ComparisonPage(loading: bool, states: seq<StateProfile>, ids: seq<string>) returns (view: ComparisonView)
    ensures view.Loading? <==> loading
    ensures view.NoneSelected? <==> !loading && SelectedStates(states, ids) == []
    ensures view.Compared? ==>
      view.selected == SelectedStates(states, ids) && view.selected != []
      && ChartMatches(view.chart, view.selected)
  {
    if loading {
      return Loading;
    }
    var selected := SelectedStates(states, ids);
    if |selected| == 0 {
      return NoneSelected;
    }
    var chart := ChartData(selected);
    view := Compared(selected, chart);
  }

  /** The AQI badge in the table: green for 'Good', yellow for 'Moderate',
      red for every other label. */
  function LabelBadgeTone(l: AqiLabel): (t: Tone)
    ensures t == Emerald <==> l.Good?
    ensures t == Yellow <==> l.Moderate?
    ensures t == Red <==> l.Poor? || l.VeryPoor? || l.Hazardous?
  {
    match l
    case Good => Emerald
    case Moderate => Yellow
    case _ => Red
  }

  /** The crime status text in the table: green for Low, amber for Medium,
      red otherwise. */
  function CrimeTextTone(c: CrimeStatus): (t: Tone)
    ensures t == Emerald <==> c.Low?
    ensures t == Amber <==> c.Medium?
    ensures t == Red <==> c.High?
  {
    match c
    case Low => Emerald
    case Medium => Amber
    case _ => Red
  }
}
