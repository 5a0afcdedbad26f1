/** The detail page of one record (pages/StateDetail.tsx): the lookup by the
    route id with its loading and not-found branches, and the colour and icon
    choices the page makes from the record. */
module StateDetail {
  import opened Common
  import opened Types
  import opened StateContext
  import Comparison
  import StateCard

  /** The position `states.find` stops at: the first record carrying `id`. */
  function FindIndex(states: seq<StateProfile>, id: string): (r: Option<nat>)
    ensures r.None? <==> forall i :: 0 <= i < |states| ==> states[i].id != id
    ensures r.Some? ==> r.value < |states| && states[r.value].id == id
    ensures r.Some? ==> forall j :: 0 <= j < r.value ==> states[j].id != id
  {
    if states == [] then None
    else if states[0].id == id then Some(0)
    else
      match FindIndex(states[1..], id)
      case None => None
      case Some(k) => Some(k + 1)
  }

  /** `states.find(s => s.id === id)`. */
  function FindById(states: seq<StateProfile>, id: string): (r: Option<StateProfile>)
    ensures r.None? <==> forall s :: s in states ==> s.id != id
    ensures r.Some? ==> r.value in states && r.value.id == id
    ensures r.Some? ==> FindIndex(states, id).Some? && r.value == states[FindIndex(states, id).value]
  {
    match FindIndex(states, id)
    case None => None
    case Some(k) => Some(states[k])
  }

  /** With unique ids, looking up a record's own id finds that record. */
  lemma FindOwnId(states: seq<StateProfile>, s: StateProfile)
    requires UniqueIds(states) && s in states
    ensures FindById(states, s.id) == Some(s)
  {
    var i :| 0 <= i < |states| && states[i] == s;
    var k := FindIndex(states, s.id).value;
    assert states[k].id == states[i].id;
  }

  /** Enrichment keeps ids and their order, so a lookup on the enriched list
      stops at the same position and finds the enriched version of the record
      the static catalog holds there. */
  lemma FindAfterEnrichment(states: seq<StateProfile>, outcomes: seq<LookupOutcome>, id: string)
    requires |outcomes| == |states|
    ensures FindIndex(EnrichAll(states, outcomes), id) == FindIndex(states, id)
    ensures FindById(states, id).Some? ==>
      var k := FindIndex(states, id).value;
      FindById(EnrichAll(states, outcomes), id) == Some(EnrichRecord(states[k], outcomes[k]))
  {
    EnrichAllPreserves(states, outcomes);
    FindIndexSameIds(EnrichAll(states, outcomes), states, id);
  }

  /** The lookup reads ids only: two lists with the same ids position by
      position stop at the same position. */
  lemma {:induction false} FindIndexSameIds(a: seq<StateProfile>, b: seq<StateProfile>, id: string)
    requires |a| == |b| && forall i :: 0 <= i < |a| ==> a[i].id == b[i].id
    ensures FindIndex(a, id) == FindIndex(b, id)
  {
    if a != [] {
      assert a[0].id == b[0].id;
      FindIndexSameIds(a[1..], b[1..], id);
    }
  }

  /** What the detail route renders. */
  datatype DetailView = DetailLoading | NotFound | Found(state: StateProfile)

  /** The page's branches: the spinner while the catalog loads, then the
      not-found message, then the record. */
  function DetailPage(loading: bool, states: seq<StateProfile>, id: string): (v: DetailView)
    ensures v.DetailLoading? <==> loading
    ensures v.NotFound? <==> !loading && forall s :: s in states ==> s.id != id
    ensures v.Found? ==> v.state in states && v.state.id == id && Some(v.state) == FindById(states, id)
  {
    if loading then DetailLoading
    else
      match FindById(states, id)
      case None => NotFound
      case Some(s) => Found(s)
  }

  /** Once loaded, the "View Details" link of a card opens the detail page of
      that very record, provided ids are unique and each is one non-empty path
      segment. */
  lemma CardLinkOpensOwnDetail(states: seq<StateProfile>, s: StateProfile)
    requires UniqueIds(states) && s in states
    requires s.id != [] && '/' !in s.id
    ensures StateCard.RouteId(StateCard.DetailLink(s.id)).Some?
    ensures DetailPage(false, states, StateCard.RouteId(StateCard.DetailLink(s.id)).value) == Found(s)
  {
    StateCard.DetailLinkRoundTrip(s.id);
    FindOwnId(states, s);
  }

  /** `getAQIColor`: four bands, green up to 50, yellow up to 100, orange up
      to 200, red above. */
  function AqiColour(value: real): (t: Tone)
    ensures t.Emerald? <==> value <= 50.0
    ensures t.Yellow? <==> 50.0 < value <= 100.0
    ensures t.Orange? <==> 100.0 < value <= 200.0
    ensures t.Red? <==> value > 200.0
  {
    if value <= 50.0 then Emerald
    else if value <= 100.0 then Yellow
    else if value <= 200.0 then Orange
    else Red
  }

  /** The colour each label would call for: the 'Very Poor' and 'Hazardous'
      bands share red. */
  function LabelTone(l: AqiLabel): Tone {
    match l
    case Good => Emerald
    case Moderate => Yellow
    case Poor => Orange
    case _ => Red
  }

  /** The colour bands are the label bands with the top two merged. */
  lemma AqiColourFollowsLabel(value: real)
    ensures AqiColour(value) == LabelTone(GetAqiLabel(value))
  {
  }

  /** The colour of the box follows the shown (rounded) value, the label the
      unrounded reading, so the two can disagree just above a boundary: a
      live 100.4 sits in a yellow box labelled 'Poor'. */
  lemma ColourAndLabelCanDisagree(s: StateProfile)
    requires s.coordinates.Some?
    ensures var r := EnrichRecord(s, Current(CurrentReading(Some(100.4), None, None, None, None, None)));
      AqiColour(r.aqi.value) == Yellow && LabelTone(r.aqi.category) == Orange
  {
    RoundedBoundaryExample(s);
  }

  /** The icons an activity can show. */
  datatype ActivityIconKind = Zap | Landmark | WindIcon | Smile

  /** `getActivityIcon`: three types have their own icon; every other type
      falls through to the default. */
  function ActivityIcon(kind: ActivityType): (i: ActivityIconKind)
    ensures i.Zap? <==> kind.Adventure?
    ensures i.Landmark? <==> kind.Heritage?
    ensures i.WindIcon? <==> kind.Nature?
    ensures i.Smile? <==> kind.Spiritual? || kind.Cultural? || kind.Food?
  {
    match kind
    case Adventure => Zap
    case Heritage => Landmark
    case Nature => WindIcon
    case _ => Smile
  }

  /** The crime status badge: green for Low, yellow for Medium, red
      otherwise. */
  function CrimeTone(c: CrimeStatus): (t: Tone)
    ensures t.Emerald? <==> c.Low?
    ensures t.Yellow? <==> c.Medium?
    ensures t.Red? <==> c.High?
  {
    match c
    case Low => Emerald
    case Medium => Yellow
    case _ => Red
  }

  /** The detail page and the comparison table agree on Low and High and
      differ on Medium: yellow here, amber in the table. */
  lemma CrimeTonesAcrossViews(c: CrimeStatus)
    ensures CrimeTone(c) == Comparison.CrimeTextTone(c) <==> !c.Medium?
  {
  }

  /** The pollutant breakdown box is rendered only when a breakdown is
      present. */
  predicate ShowsEuropeanBreakdown(s: StateProfile): (b: bool)
    ensures b <==> s.europeanAqi != None
  {
    s.europeanAqi.Some?
  }

  /** After enrichment the breakdown is shown for every record that received
      a `current` object and had coordinates, and otherwise exactly when the
      static record carried one. */
  lemma BreakdownAfterEnrichment(s: StateProfile, outcome: LookupOutcome)
    ensures s.coordinates.Some? && outcome.Current? ==> ShowsEuropeanBreakdown(EnrichRecord(s, outcome))
    ensures !(s.coordinates.Some? && outcome.Current?) ==>
      (ShowsEuropeanBreakdown(EnrichRecord(s, outcome)) <==> ShowsEuropeanBreakdown(s))
  {
  }
}
