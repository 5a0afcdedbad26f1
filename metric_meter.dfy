/** The score meter (components/MetricMeter.tsx): the filled percentage of
    the bar, its colour and the size classes. */
module MetricMeter {
  import opened Common

  /** The default `max` of a meter: scores are out of 10. */
  const DefaultMax: real := 10.0

  /** `Math.min((value / max) * 100, 100)`: capped above at 100, with no lower
      cap. */
  function Percentage(value: real, max: real): (p: real)
    requires max != 0.0
    ensures p <= 100.0
    ensures p == 100.0 || p == value / max * 100.0
    ensures value / max * 100.0 <= 100.0 ==> p == value / max * 100.0
  {
    if value / max * 100.0 < 100.0 then value / max * 100.0 else 100.0
  }

  /** On the default scale a documented score fills exactly ten times its
      value, between 0 and 100. */
  lemma ScorePercentage(score: real)
    requires 0.0 <= score <= 10.0
    ensures Percentage(score, DefaultMax) == score * 10.0
    ensures 0.0 <= Percentage(score, DefaultMax) <= 100.0
  {
  }

  /** Nothing caps the bar from below: a negative value over a positive
      maximum gives a negative width. */
  lemma NegativeValueNotClamped(value: real, max: real)
    requires value < 0.0 && max > 0.0
    ensures Percentage(value, max) < 0.0
  {
    assert value / max < 0.0;
  }

  /** A larger value never fills less of a bar with a positive maximum. */
  lemma PercentageMonotone(v: real, w: real, max: real)
    requires v <= w && max > 0.0
    ensures Percentage(v, max) <= Percentage(w, max)
  {
    assert v / max <= w / max;
  }

  /** `getColor(pct)`: the flat primary colour when the scale is off; on the
      standard scale high is green; on the inverse scale low is green. */
  function MeterColour(pct: real, colorScale: bool, inverse: bool): (t: Tone)
    ensures !colorScale ==> t.Primary?
    ensures colorScale && !inverse ==>
      && (t.Emerald? <==> pct >= 80.0)
      && (t.Yellow? <==> 50.0 <= pct < 80.0)
      && (t.Red? <==> pct < 50.0)
    ensures colorScale && inverse ==>
      && (t.Emerald? <==> pct <= 30.0)
      && (t.Yellow? <==> 30.0 < pct <= 60.0)
      && (t.Red? <==> pct > 60.0)
  {
    if !colorScale then Primary
    else if !inverse then
      if pct >= 80.0 then Emerald
      else if pct >= 50.0 then Yellow
      else Red
    else
      if pct <= 30.0 then Emerald
      else if pct <= 60.0 then Yellow
      else Red
  }

  /** How good a colour reads: red, yellow, green. */
  function Goodness(t: Tone): nat {
    match t
    case Emerald => 2
    case Yellow => 1
    case _ => 0
  }

  /** On the standard scale a fuller bar is never shown in a worse colour; on
      the inverse scale it is never shown in a better one. */
  lemma MeterColourMonotone(p: real, q: real)
    requires p <= q
    ensures Goodness(MeterColour(p, true, false)) <= Goodness(MeterColour(q, true, false))
    ensures Goodness(MeterColour(p, true, true)) >= Goodness(MeterColour(q, true, true))
  {
  }

  /** With the default options, a documented score is green from 8, yellow from
      5 and red below. */
  lemma ScoreColour(score: real)
    requires 0.0 <= score <= 10.0
    ensures MeterColour(Percentage(score, DefaultMax), true, false).Emerald? <==> score >= 8.0
    ensures MeterColour(Percentage(score, DefaultMax), true, false).Yellow? <==> 5.0 <= score < 8.0
    ensures MeterColour(Percentage(score, DefaultMax), true, false).Red? <==> score < 5.0
  {
    ScorePercentage(score);
  }

  /** The bar height and label text classes of one meter size. */
  datatype SizeClasses = SizeClasses(height: string, text: string)

  /** `hClass` and `textClass`: 'sm' and 'lg' have their own classes; every
      other size, the default 'md' included, gets the medium ones. */
  function SizeClassesOf(size: string): (c: SizeClasses)
    ensures c in {SizeClasses("h-2", "text-xs"), SizeClasses("h-3", "text-sm"), SizeClasses("h-4", "text-lg")}
    ensures c.height == "h-2" <==> size == "sm"
    ensures c.height == "h-4" <==> size == "lg"
    ensures size != "sm" && size != "lg" ==> c == SizeClasses("h-3", "text-sm")
  {
    if size == "sm" then SizeClasses("h-2", "text-xs")
    else if size == "lg" then SizeClasses("h-4", "text-lg")
    else SizeClasses("h-3", "text-sm")
  }
}
