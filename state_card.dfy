/** A catalog card (components/StateCard.tsx): the compare button's guard and
    disabled state, the three quick-stat icon colours and the link to the
    detail page. */
module StateCard {
  import opened Common
  import opened Types
  import Selection
  import MetricMeter
  import opened StateContext

  /** The click handler calls `onToggleCompare` only when selection is not
      disabled or the card is already selected. */
  predicate ClickToggles(disableSelection: bool, isSelected: bool): (b: bool)
    ensures isSelected ==> b
    ensures !isSelected ==> (b <==> !disableSelection)
  {
    !disableSelection || isSelected
  }

  /** The `disabled` attribute of the compare button. */
  predicate ButtonDisabled(disableSelection: bool, isSelected: bool): (b: bool)
    ensures b ==> !isSelected
    ensures !isSelected ==> (b <==> disableSelection)
  {
    disableSelection && !isSelected
  }

  /** The handler acts exactly when the button is enabled, and a selected card
      can always be clicked to deselect it. */
  lemma GuardMatchesButton(disableSelection: bool, isSelected: bool)
    ensures ClickToggles(disableSelection, isSelected) <==> !ButtonDisabled(disableSelection, isSelected)
    ensures isSelected ==> ClickToggles(disableSelection, isSelected)
  {
  }

  /** The comparison list after a click on the card of `id`, with the props
      the browse view passes (`isSelected`, `disableSelection`). */
  function AfterCardClick(ids: seq<string>, id: string): seq<string> {
    if ClickToggles(Selection.DisableSelection(ids), Selection.IsSelected(ids, id))
    then Selection.Toggled(ids, id)
    else ids
  }

  /** The card's guard changes nothing: a click is the toggle itself, which
      already refuses a fourth id. */
  lemma CardClickIsToggle(ids: seq<string>, id: string)
    ensures AfterCardClick(ids, id) == Selection.Toggled(ids, id)
  {
    if !ClickToggles(Selection.DisableSelection(ids), Selection.IsSelected(ids, id)) {
      assert id !in ids && |ids| >= Selection.MaxSelected;
    }
  }

  /** A click on a card keeps the comparison list valid. */
  lemma CardClickValid(ids: seq<string>, id: string)
    requires Selection.Valid(ids)
    ensures Selection.Valid(AfterCardClick(ids, id))
  {
    CardClickIsToggle(ids, id);
    Selection.ToggledValid(ids, id);
  }

  /** The AQI icon: green below 100, amber from 100 up. */
  function AqiIconTone(value: real): (t: Tone)
    ensures t.Emerald? <==> value < 100.0
    ensures t.Amber? <==> value >= 100.0
  {
    if value < 100.0 then Emerald else Amber
  }

  /** The safety icon: green above 7, red otherwise. */
  function SafetyIconTone(score: real): (t: Tone)
    ensures t.Emerald? <==> score > 7.0
    ensures t.Red? <==> score <= 7.0
  {
    if score > 7.0 then Emerald else Red
  }

  /** The civic-sense icon: green above 7, amber otherwise. */
  function CivicIconTone(score: real): (t: Tone)
    ensures t.Emerald? <==> score > 7.0
    ensures t.Amber? <==> score <= 7.0
  {
    if score > 7.0 then Emerald else Amber
  }

  /** Against the label bands: a green AQI icon means a 'Good' or 'Moderate'
      label, a label of 'Poor' or worse means an amber icon, and the value 100
      itself is 'Moderate' yet shown amber. */
  lemma AqiIconVersusLabel(value: real)
    ensures AqiIconTone(value).Emerald? ==> GetAqiLabel(value).Good? || GetAqiLabel(value).Moderate?
    ensures !(GetAqiLabel(value).Good? || GetAqiLabel(value).Moderate?) ==> AqiIconTone(value).Amber?
    ensures GetAqiLabel(100.0).Moderate? && AqiIconTone(100.0).Amber?
  {
  }

  /** Against the detail page's meter (default scale, standard colours): a
      documented score green on the card's safety icon is green or yellow on
      the meter, and green on the meter means green on the icon; the two
      disagree exactly for scores strictly between 7 and 8. */
  lemma SafetyIconVersusMeter(score: real)
    requires 0.0 <= score <= 10.0
    ensures var meter := MetricMeter.MeterColour(MetricMeter.Percentage(score, MetricMeter.DefaultMax), true, false);
      && (meter.Emerald? ==> SafetyIconTone(score).Emerald?)
      && (SafetyIconTone(score).Emerald? ==> meter.Emerald? || meter.Yellow?)
      && (SafetyIconTone(score).Emerald? != meter.Emerald? <==> 7.0 < score < 8.0)
  {
    MetricMeter.ScoreColour(score);
  }

  /** The path segment the link starts with. */
  const DetailPrefix: string := "/state/"

  /** The "View Details" link: `/state/` followed by the id. */
  function DetailLink(id: string): (path: string)
    ensures |path| == |DetailPrefix| + |id|
    ensures path[..|DetailPrefix|] == DetailPrefix && path[|DetailPrefix|..] == id
  {
    DetailPrefix + id
  }

  /** The `/state/:id` route: a path matches when it is the prefix followed by
      one non-empty segment, which is the id. */
  function RouteId(path: string): (r: Option<string>)
    ensures r.Some? ==> DetailLink(r.value) == path && r.value != [] && '/' !in r.value
  {
    if |path| > |DetailPrefix| && path[..|DetailPrefix|] == DetailPrefix && '/' !in path[|DetailPrefix|..]
    then
      assert path == DetailPrefix + path[|DetailPrefix|..];
      Some(path[|DetailPrefix|..])
    else None
  }

  /** Following a card's link routes back to that card's id, for any id that
      is one non-empty path segment; distinct ids give distinct links. */
  lemma DetailLinkRoundTrip(id: string)
    requires id != [] && '/' !in id
    ensures RouteId(DetailLink(id)) == Some(id)
  {
  }

  lemma DetailLinkInjective(a: string, b: string)
    requires DetailLink(a) == DetailLink(b)
    ensures a == b
  {
    assert a == DetailLink(a)[|DetailPrefix|..];
  }
}
