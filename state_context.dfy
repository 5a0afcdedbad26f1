/** The catalog provider (contexts/StateContext.tsx): the AQI label function
    and the one-time enrichment that merges a live air-quality reading into
    each record. The network lookup is replaced by its outcome, one per
    record. */
module StateContext {
  import opened Common
  import opened Types

  /** `getAQILabel`: the five label bands. */
  function GetAqiLabel(v: real): (l: AqiLabel)
    ensures l == Good <==> v <= 50.0
    ensures l == Moderate <==> 50.0 < v <= 100.0
    ensures l == Poor <==> 100.0 < v <= 200.0
    ensures l == VeryPoor <==> 200.0 < v <= 300.0
    ensures l == Hazardous <==> v > 300.0
  {
    if v <= 50.0 then Good
    else if v <= 100.0 then Moderate
    else if v <= 200.0 then Poor
    else if v <= 300.0 then VeryPoor
    else Hazardous
  }

  /** The label a value may carry is one of the four declared literals
      exactly when the value is not in the 'Very Poor' band. */
  lemma LabelOutsideDeclaredUnion(v: real)
    ensures LabelText(GetAqiLabel(v)) in DeclaredAqiLabels <==> !(200.0 < v <= 300.0)
  {
    DeclaredLabelsExcludeVeryPoor(GetAqiLabel(v));
  }

  /** `Math.round`: the nearest integer, halves rounded up. */
  function Round(x: real): (r: real)
    ensures r.Floor as real == r
    ensures x - 0.5 < r <= x + 0.5
  {
    (x + 0.5).Floor as real
  }

  /** `v || fallback` on a number: an absent reading and a reading of 0 are
      both falsy and give the fallback. */
  function OrElse(v: Option<real>, fallback: real): (r: real)
    ensures r == fallback || (v.Some? && r == v.value && r != 0.0)
    ensures v.Some? && v.value != 0.0 ==> r == v.value
    ensures v == None || v == Some(0.0) ==> r == fallback
  {
    if v.Some? && v.value != 0.0 then v.value else fallback
  }

  /** The fields of `data.current` the merge reads; `None` is a missing field. */
  datatype CurrentReading = CurrentReading(
    usAqi: Option<real>,
    pm2_5: Option<real>,
    pm10: Option<real>,
    no2: Option<real>,
    o3: Option<real>,
    so2: Option<real>)

  /** How the lookup for one record ended: a thrown or non-ok request (or a
      body that does not parse), a body without `current`, or a `current`
      object. */
  datatype LookupOutcome = Failed | NoCurrent | Current(reading: CurrentReading)

  /** The record with a live reading merged in: marked real-time, the AQI
      value and label recomputed from `us_aqi || old value`, and the European
      breakdown attached with each falsy pollutant as 0. */
  function MergeCurrent(s: StateProfile, c: CurrentReading): (r: StateProfile)
    ensures SameApartFromAqi(r, s) && r.isRealtime
    ensures r.aqi.value == Round(OrElse(c.usAqi, s.aqi.value))
    ensures r.aqi.category == GetAqiLabel(OrElse(c.usAqi, s.aqi.value))
    ensures r.europeanAqi.Some? && r.europeanAqi.value.pm2_5 == c.pm2_5.GetOr(0.0)
    ensures r.europeanAqi.value.pm10 == c.pm10.GetOr(0.0) && r.europeanAqi.value.no2 == c.no2.GetOr(0.0)
    ensures r.europeanAqi.value.o3 == c.o3.GetOr(0.0) && r.europeanAqi.value.so2 == c.so2.GetOr(0.0)
  {
    var v := OrElse(c.usAqi, s.aqi.value);
    s.(isRealtime := true,
       aqi := Aqi(Round(v), GetAqiLabel(v)),
       europeanAqi := Some(EuropeanAqi(
         OrElse(c.pm2_5, 0.0), OrElse(c.pm10, 0.0), OrElse(c.no2, 0.0),
         OrElse(c.o3, 0.0), OrElse(c.so2, 0.0))))
  }

  /** `r` differs from `s` at most in the AQI, the real-time flag and the
      European breakdown. */
  predicate SameApartFromAqi(r: StateProfile, s: StateProfile) {
    r.(aqi := s.aqi, isRealtime := s.isRealtime, europeanAqi := s.europeanAqi) == s
  }

  /** The per-record step of the enrichment. */
  function EnrichRecord(s: StateProfile, outcome: LookupOutcome): (r: StateProfile)
    ensures SameApartFromAqi(r, s) && r.id == s.id
    ensures s.coordinates.None? || !outcome.Current? ==> r == s
    ensures s.coordinates.Some? && outcome.Current? ==>
      var c := outcome.reading;
      && r.isRealtime
      && r.europeanAqi == Some(EuropeanAqi(c.pm2_5.GetOr(0.0), c.pm10.GetOr(0.0),
                                           c.no2.GetOr(0.0), c.o3.GetOr(0.0), c.so2.GetOr(0.0)))
      && (c.usAqi.Some? && c.usAqi.value != 0.0 ==>
            r.aqi == Aqi(Round(c.usAqi.value), GetAqiLabel(c.usAqi.value)))
      && (c.usAqi.None? || c.usAqi.value == 0.0 ==>
            r.aqi == Aqi(Round(s.aqi.value), GetAqiLabel(s.aqi.value)))
  {
    if s.coordinates.None? then s
    else
      match outcome
      case Failed => s
      case NoCurrent => s
      case Current(c) => MergeCurrent(s, c)
  }

  /** `Promise.all(states.map(...))`, outcomes given in record order. */
  function EnrichAll(states: seq<StateProfile>, outcomes: seq<LookupOutcome>): (r: seq<StateProfile>)
    requires |outcomes| == |states|
    ensures |r| == |states|
    ensures forall i :: 0 <= i < |r| ==> r[i] == EnrichRecord(states[i], outcomes[i])
  {
    if states == [] then []
    else [EnrichRecord(states[0], outcomes[0])] + EnrichAll(states[1..], outcomes[1..])
  }

  /** The enriched list keeps the ids in order, every field other than the
      AQI data, and the documented score range. */
  lemma EnrichAllPreserves(states: seq<StateProfile>, outcomes: seq<LookupOutcome>)
    requires |outcomes| == |states|
    ensures var r := EnrichAll(states, outcomes);
      && (forall i :: 0 <= i < |r| ==> r[i].id == states[i].id && SameApartFromAqi(r[i], states[i]))
      && (UniqueIds(states) ==> UniqueIds(r))
      && (forall i :: 0 <= i < |r| && ScoresInRange(states[i]) ==> ScoresInRange(r[i]))
  {
    var r := EnrichAll(states, outcomes);
    forall i | 0 <= i < |r|
      ensures r[i].id == states[i].id && SameApartFromAqi(r[i], states[i])
      ensures ScoresInRange(states[i]) ==> ScoresInRange(r[i])
    {
      assert r[i] == EnrichRecord(states[i], outcomes[i]);
    }
  }

  /** A record whose lookup failed, or found no `current`, is returned as it
      was, with its AQI data exactly as loaded. */
  lemma FailedLookupKeepsRecord(s: StateProfile, outcome: LookupOutcome)
    requires outcome.Failed? || outcome.NoCurrent?
    ensures EnrichRecord(s, outcome) == s
  {
  }

  /** A `current` object without `us_aqi` still marks the record real-time and
      attaches a breakdown, though its value is only the old one rounded. */
  lemma MissingIndexStillMarkedLive(s: StateProfile, c: CurrentReading)
    requires s.coordinates.Some? && c.usAqi.None?
    ensures var r := EnrichRecord(s, Current(c));
      r.isRealtime && r.europeanAqi.Some? && r.aqi.value == Round(s.aqi.value)
  {
  }

  /** The reading lies in the half unit just above a band boundary. */
  predicate JustAboveBoundary(u: real) {
    || 50.0 < u < 50.5
    || 100.0 < u < 100.5
    || 200.0 < u < 200.5
    || 300.0 < u < 300.5
  }

  /** The label is computed from the unrounded reading: it disagrees with the
      label of the shown (rounded) value exactly when the reading lies in the
      half unit just above a band boundary. */
  lemma LabelOfRoundedValue(u: real)
    ensures GetAqiLabel(Round(u)) != GetAqiLabel(u) <==> JustAboveBoundary(u)
  {
    var r := Round(u);
    assert u - 0.5 < r <= u + 0.5;
    if 50.0 < u < 50.5 { assert r == 50.0; }
    if 100.0 < u < 100.5 { assert r == 100.0; }
    if 200.0 < u < 200.5 { assert r == 200.0; }
    if 300.0 < u < 300.5 { assert r == 300.0; }
  }

  /** A reading of 100.4 is shown as 100 with the label 'Poor', although 100
      itself is labelled 'Moderate'. */
  lemma RoundedBoundaryExample(s: StateProfile)
    requires s.coordinates.Some?
    ensures var r := EnrichRecord(s, Current(CurrentReading(Some(100.4), None, None, None, None, None)));
      r.aqi.value == 100.0 && r.aqi.category == Poor && GetAqiLabel(r.aqi.value) == Moderate
  {
    assert Round(100.4) == 100.0;
  }

  /** A reading of exactly 0 is falsy: it is treated as no reading at all,
      so the old value is kept (rounded) rather than a clean-air 0 shown. */
  lemma ZeroReadingFallsBack(s: StateProfile, c: CurrentReading)
    requires c.usAqi == Some(0.0)
    ensures EnrichRecord(s, Current(c)) == EnrichRecord(s, Current(c.(usAqi := None)))
  {
  }

  /** The provider's state: the record list and the loading flag. */
  class Provider {
    var states: seq<StateProfile>
    var loading: bool

    /** The static catalog, loading. */
    constructor (catalog: seq<StateProfile>)
      ensures states == catalog && loading
    {
      states := catalog;
      loading := true;
    }

    /** Once every lookup has settled: `setStates(updatedStates)` then
      `setLoading(false)`. */
    method FinishEnrichment(outcomes: seq<LookupOutcome>)
      requires loading && |outcomes| == |states|
      modifies this
      ensures states == EnrichAll(old(states), outcomes) && !loading
      ensures |states| == |old(states)|
      ensures forall i :: 0 <= i < |states| ==> states[i].id == old(states)[i].id
    {
      states := EnrichAll(states, outcomes);
      loading := false;
    }
  }
}
