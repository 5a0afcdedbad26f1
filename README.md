# Indiatravel core, modelled in Dafny

IndiTravel is a small single-page travel guide to the states of India. It
shows a catalog of state profiles. Each profile carries scores out of 10,
an air-quality index (AQI) with a label, and a crime status. This project
models the logic behind the pages, not the rendering:

- **Comparison list** (`selection.dfy`): an ordered list of at most three
  distinct state ids. The browse view toggles and clears it and the
  comparison view removes from it. It is a class with one `seq` field; its
  methods are specified by the pure functions `Toggled` and `Without`.
- **Browse list** (`home.dfy`): case-insensitive search on name or tagline,
  then a sort by one of five keys. The sort is an in-place insertion sort on
  an `array`. It is proved equal to the stable functional sort `SortBy`,
  which is proved to be a permutation, sorted by the key's comparator, and
  stable.
- **AQI enrichment** (`state_context.dfy`): the label bands, and the
  per-record merge of a live reading. The network lookup is replaced by its
  outcome (`Failed | NoCurrent | Current(reading)`). The provider's record
  list and loading flag are a class.
- **Comparison view** (`comparison.dfy`): which records are shown, the
  radar-chart rows built by loops, series colours, and table badge colours.
- **Card, meter and detail page** (`state_card.dfy`, `metric_meter.dfy`,
  `state_detail.dfy`): the compare-button guard, icon thresholds, the detail
  link and its route, the meter percentage and colour bands, size classes,
  the lookup by id with its loading and not-found branches, and the AQI,
  activity and crime colour choices.

`types.dfy` holds the records and enumerations of `types.ts`. `text.dfy`
holds lower-casing, substring search and the name order. `common.dfy` holds
`Option`, the colour hues and two sequence predicates.

Three behaviours of the enrichment code are easy to miss; the model keeps
each of them:

- A `current` object without `us_aqi` still marks the record real-time and
  attaches a breakdown, although no live index arrived; the shown value is
  the old one rounded (`MissingIndexStillMarkedLive`).
- A breakdown is attached on every live reading, even when some pollutant
  fields are missing; each missing pollutant is shown as 0 (`EnrichRecord`).
- The label is computed from the unrounded reading while the shown value is
  rounded, so the two disagree just above a band boundary: 100.4 is shown as
  100 and labelled 'Poor', though 100 is 'Moderate' (`LabelOfRoundedValue`,
  `RoundedBoundaryExample`).

## Model

| member | source | states |
|---|---|---|
| Types.ParseSortOption | types.ts:42 | a parsed key is one of the five literals and maps back to it |
| Types.SortOptionKeysRoundTrip | types.ts:42 | each of the five sort options round-trips through its literal, so the literals are distinct |
| Types.DeclaredLabelsExcludeVeryPoor | types.ts:30 | the declared label union holds every label text except 'Very Poor' |
| Text.LowerChar | pages/Home.tsx:20 | only A-Z change, each to its lower-case letter |
| Text.Lower | pages/Home.tsx:20 | lower-casing keeps the length and maps each character |
| Text.LowerIdempotent | pages/Home.tsx:19-22 | lower-casing twice equals lower-casing once |
| Text.Includes | pages/Home.tsx:20-21 | `includes` is true exactly when the needle occurs at some index; the empty needle always occurs |
| Text.LexLeReflexive | pages/Home.tsx:39 | the name order is reflexive |
| Text.LexLeTotal | pages/Home.tsx:39 | any two names are ordered one way or the other |
| Text.LexLeAntisymmetric | pages/Home.tsx:39 | names ordered both ways are equal |
| Text.LexLeTransitive | pages/Home.tsx:39 | the name order is transitive |
| Home.Matches | pages/Home.tsx:19-21 | the empty term matches every record, and a matching term is no longer than the name or the tagline |
| Selection.Without | pages/Comparison.tsx:18 | removes every occurrence of the id and keeps the other ids, with their counts, in order |
| Selection.Toggled | pages/Home.tsx:44-54 | a present id is removed; an absent id is appended below capacity 3; at capacity the list is unchanged |
| Selection.WithoutNoDuplicates | pages/Home.tsx:47 | removal from a repeat-free list keeps it repeat-free and shortens it by one exactly when the id was present |
| Selection.ToggledValid | pages/Home.tsx:44-54 | a toggle preserves "at most 3, no repeats" |
| Selection.WithoutAbsent | pages/Home.tsx:47 | removing an absent id changes nothing |
| Selection.WithoutAppended | pages/Home.tsx:47 | removing the id just appended undoes the append |
| Selection.ToggleTwiceRestores | pages/Home.tsx:44-54 | toggling an absent id twice below capacity restores the list |
| Selection.ToggleAllValid | pages/Home.tsx:44-54 | any sequence of toggles from a valid list stays valid |
| Selection.ReachableFromEmptyValid | App.tsx:10 | every list reachable by toggles from the initial empty list is valid |
| Selection.DisableSelectionMeansFull | pages/Home.tsx:126 | on a valid list selection is disabled exactly when it holds 3 ids, and a toggle of an unselected id then does nothing |
| Selection.ComparisonList.constructor | App.tsx:10 | the list starts empty and valid |
| Selection.ComparisonList.Toggle | pages/Home.tsx:44-54 | the new list is the toggle of the old one and stays valid |
| Selection.ComparisonList.Remove | pages/Comparison.tsx:17-19 | the new list is the old one without the id, an order-preserving sublist, valid if the old one was |
| Selection.ComparisonList.Clear | pages/Home.tsx:151 | the list becomes empty |
| Selection.IsSelected | pages/Home.tsx:124 | a card is selected exactly when its id occurs at some position of the list |
| Selection.DisableSelection | pages/Home.tsx:126 | when selection is disabled every toggle of a new id is refused; otherwise it appends the id |
| Home.FilterByTerm | pages/Home.tsx:19-22 | exactly the records whose lower-cased name or tagline contains the lower-cased term, with their multiplicities, in catalog order |
| Home.EmptyTermKeepsAll | pages/Home.tsx:19-22 | an empty term keeps the whole catalog in order |
| Home.FilterIgnoresTermCase | pages/Home.tsx:19-22 | a term and its lower-cased form keep the same records |
| Home.SameKeyIsZeroComparator | pages/Home.tsx:24-40 | a comparator returns 0 exactly when the two records share the key's field |
| Home.NameCompare | pages/Home.tsx:39 | zero exactly for equal names, negative exactly when the first name is strictly before, positive otherwise |
| Home.Comparator | pages/Home.tsx:24-39 | zero exactly on a tie; negative exactly when `a` has the lower AQI, the higher safety, culture or infrastructure score, or the earlier name |
| Home.NameInOrderIsLexLe | pages/Home.tsx:39 | the name comparator puts a first exactly when its name is lexicographically no greater |
| Home.InOrderTotal | pages/Home.tsx:24-40 | every comparator orders any pair one way or the other |
| Home.InOrderTransitive | pages/Home.tsx:24-40 | every comparator's order is transitive |
| Home.Insert | pages/Home.tsx:24-40 | insertion adds exactly one copy of the element |
| Home.SortBy | pages/Home.tsx:24-40 | the sort keeps the length; its permutation, order and stability are the three lemmas below |
| Home.SortByPermutation | pages/Home.tsx:24-40 | sorting adds and loses nothing |
| Home.InsertSorted | pages/Home.tsx:24-40 | inserting into a sorted list keeps it sorted |
| Home.SortBySorted | pages/Home.tsx:24-40 | the sorted list has every pair in comparator order |
| Home.InsertTied | pages/Home.tsx:24-40 | insertion puts the new element before the elements it ties with |
| Home.SortByStable | pages/Home.tsx:24-40 | records that tie keep their input order |
| Home.SortedByKeyMeans | pages/Home.tsx:24-40 | sorted means AQI ascending, safety, culture and infrastructure descending, names ascending |
| Home.InsertAt | pages/Home.tsx:24-40 | insertion places the element at the first position it may precede |
| Home.SortInPlace | pages/Home.tsx:24-40 | the array ends up as the stable sort of its old contents |
| Home.InsertIntoSuffix | pages/Home.tsx:24-40 | one step moves an element into the sorted suffix and leaves the prefix alone |
| Home.ShiftLeft | pages/Home.tsx:24-40 | the elements the moved one may not precede shift left by one, and the free slot is returned |
| Home.InsertionResult | pages/Home.tsx:24-40 | the array layout after a step is the functional insertion |
| Home.FilteredStates | pages/Home.tsx:18-42 | the browse list is the stable sort of the filtered catalog |
| Home.BrowseListCorrect | pages/Home.tsx:18-42 | the browse list holds exactly the matching records, in key order, ties in catalog order |
| StateContext.GetAqiLabel | contexts/StateContext.tsx:18-24 | the five bands: up to 50, 100, 200, 300, and above |
| StateContext.LabelOutsideDeclaredUnion | contexts/StateContext.tsx:22 | a computed label lies outside the declared union exactly for values in (200, 300] |
| StateContext.Round | contexts/StateContext.tsx:51 | the result is an integer within half a unit of the input |
| StateContext.OrElse | contexts/StateContext.tsx:51 | the falsy fallback: the reading itself when present and non-zero, the fallback for an absent or zero reading |
| StateContext.MergeCurrent | contexts/StateContext.tsx:46-61 | only AQI data change; the record is real-time, its value is the rounded live index (or the old value when the index is absent or 0), its label that value's band, and each pollutant is the reading or 0 |
| StateContext.EnrichRecord | contexts/StateContext.tsx:31-67 | only AQI data may change; no coordinates or no `current` leaves the record as is; a reading marks it real-time, attaches the breakdown with 0 for missing pollutants, shows `Math.round(us_aqi)` and labels the unrounded value |
| StateContext.EnrichAll | contexts/StateContext.tsx:29-70 | each output record is the merge of the input record at the same position |
| StateContext.EnrichAllPreserves | contexts/StateContext.tsx:29-70 | enrichment keeps ids, their order and uniqueness, every non-AQI field, and the score range |
| StateContext.FailedLookupKeepsRecord | contexts/StateContext.tsx:63-67 | a failed lookup or a body without `current` returns the record unchanged |
| StateContext.MissingIndexStillMarkedLive | contexts/StateContext.tsx:46-61 | a `current` without `us_aqi` still marks the record real-time with a breakdown and the old value rounded |
| StateContext.LabelOfRoundedValue | contexts/StateContext.tsx:51-52 | the label of the shown value differs from the stored label exactly just above a band boundary |
| StateContext.RoundedBoundaryExample | contexts/StateContext.tsx:51-52 | a reading of 100.4 is shown as 100 and labelled 'Poor' |
| StateContext.ZeroReadingFallsBack | contexts/StateContext.tsx:51 | a reading of 0 is handled as no reading at all |
| StateContext.Provider.constructor | contexts/StateContext.tsx:15-16 | the provider starts with the static catalog, loading |
| StateContext.Provider.FinishEnrichment | contexts/StateContext.tsx:71-72 | the list becomes the enriched list, same length and ids, and loading ends |
| Comparison.SelectedStates | pages/Comparison.tsx:15 | exactly the catalog records whose id is selected, in catalog order |
| Comparison.SelectionDependsOnlyOnCatalogIds | pages/Comparison.tsx:15 | selection order and unknown ids do not change what is shown |
| Comparison.SelectedCountIsIdCount | pages/Comparison.tsx:15 | with unique ids the view shows one record per selected catalog id |
| Comparison.SeriesCountBounded | pages/Comparison.tsx:15 | the view shows no more records than selected ids, at most 3 for a valid list |
| Comparison.SeriesColour | pages/Comparison.tsx:206 | every series colour is one of the three palette colours |
| Comparison.SeriesColourCycle | pages/Comparison.tsx:206 | colours repeat with period 3 and three neighbours differ |
| Comparison.Colours | pages/Comparison.tsx:61 | the palette holds three pairwise different colours |
| Comparison.FirstColoursDistinct | pages/Comparison.tsx:206 | the first three series get three different colours |
| Comparison.DistinctSeriesColours | pages/Comparison.tsx:201-207 | on a valid selection no two plotted series share a colour |
| Comparison.ScoreFor | pages/Comparison.tsx:50-55 | a plotted value lies in 0..10 for a record with documented scores |
| Comparison.RadarData | pages/Comparison.tsx:39-45 | five axes, each with full mark 10 and a name of its own |
| Comparison.RadarAxesPlotFields | pages/Comparison.tsx:39-55 | the five axes plot safety, civic sense, hospitality, infrastructure and culture, in that order |
| Comparison.RowPrefixStep | pages/Comparison.tsx:49-57 | writing one more record's value keeps each key's value equal to the last record of that name |
| Comparison.BuildRow | pages/Comparison.tsx:47-58 | a row holds the axis name and, per record name, the score of the last record with that name |
| Comparison.ChartData | pages/Comparison.tsx:47-59 | one row per axis, in axis order, each filled as above |
| Comparison.ComparisonPage | pages/Comparison.tsx:21-59 | loading comes first, then the empty selection, then the selected records with their chart |
| Comparison.LabelBadgeTone | pages/Comparison.tsx:117-120 | green for Good, yellow for Moderate, red for every other label |
| Comparison.CrimeTextTone | pages/Comparison.tsx:167-169 | green for Low, amber for Medium, red for High |
| MetricMeter.Percentage | components/MetricMeter.tsx:24 | the fill never exceeds 100 and is the plain ratio below that |
| MetricMeter.ScorePercentage | components/MetricMeter.tsx:17 | with the default maximum 10 a score in 0..10 fills ten times its value |
| MetricMeter.NegativeValueNotClamped | components/MetricMeter.tsx:24 | nothing clamps from below: a negative value gives a negative fill |
| MetricMeter.PercentageMonotone | components/MetricMeter.tsx:24 | a larger value never fills less |
| MetricMeter.MeterColour | components/MetricMeter.tsx:26-40 | primary when the scale is off; standard bands at 80 and 50; inverse bands at 30 and 60 |
| MetricMeter.MeterColourMonotone | components/MetricMeter.tsx:29-39 | the standard scale never shows a fuller bar in a worse colour, the inverse never in a better one |
| MetricMeter.ScoreColour | components/MetricMeter.tsx:31-33 | with default options a score is green from 8, yellow from 5, red below |
| MetricMeter.SizeClassesOf | components/MetricMeter.tsx:43-44 | 'sm' and 'lg' get their own classes; every other size gets the medium classes |
| StateCard.GuardMatchesButton | components/StateCard.tsx:39-43 | the click acts exactly when the button is enabled, and a selected card is always clickable |
| StateCard.ClickToggles | components/StateCard.tsx:39 | a selected card always toggles; an unselected one toggles exactly when selection is not disabled |
| StateCard.ButtonDisabled | components/StateCard.tsx:43 | a selected card's button is never disabled; an unselected one's exactly when selection is disabled |
| StateCard.CardClickIsToggle | components/StateCard.tsx:39-41 | a card click is exactly a toggle of its id, because the toggle already refuses a fourth id |
| StateCard.CardClickValid | components/StateCard.tsx:39-41 | a card click keeps the comparison list valid |
| StateCard.AqiIconTone | components/StateCard.tsx:67 | green exactly below 100, amber from 100 |
| StateCard.SafetyIconTone | components/StateCard.tsx:71 | green exactly above 7, red otherwise |
| StateCard.CivicIconTone | components/StateCard.tsx:75 | green exactly above 7, amber otherwise |
| StateCard.AqiIconVersusLabel | components/StateCard.tsx:67 | a green icon means a Good or Moderate label, a worse label means amber, and 100 is Moderate yet amber |
| StateCard.SafetyIconVersusMeter | components/StateCard.tsx:71 | card icon and detail meter agree on green except for scores strictly between 7 and 8 |
| StateCard.DetailLink | components/StateCard.tsx:86 | the link is the `/state/` prefix followed by the id |
| StateCard.RouteId | App.tsx:37 | a matched route id is a non-empty segment whose link is the path |
| StateCard.DetailLinkRoundTrip | components/StateCard.tsx:86 | the route recovers the id from a card's link |
| StateCard.DetailLinkInjective | components/StateCard.tsx:86 | distinct ids give distinct links |
| StateDetail.FindIndex | pages/StateDetail.tsx:11 | the first position carrying the id, or none exactly when no record carries it |
| StateDetail.FindById | pages/StateDetail.tsx:11 | the record at the first position carrying the id, or none exactly when no record carries it |
| StateDetail.FindOwnId | pages/StateDetail.tsx:11 | with unique ids a record's own id finds that record |
| StateDetail.FindAfterEnrichment | pages/StateDetail.tsx:11 | after enrichment the lookup stops at the same position and finds the enriched record |
| StateDetail.DetailPage | pages/StateDetail.tsx:11-30 | loading takes precedence, then not-found exactly when no record has the id, else the found record |
| StateDetail.CardLinkOpensOwnDetail | pages/StateDetail.tsx:11-30 | a card's link opens that record's detail page once loaded |
| StateDetail.AqiColour | pages/StateDetail.tsx:32-37 | four bands: up to 50 green, up to 100 yellow, up to 200 orange, red above |
| StateDetail.AqiColourFollowsLabel | pages/StateDetail.tsx:32-37 | the colour bands are the label bands with Very Poor and Hazardous merged |
| StateDetail.ColourAndLabelCanDisagree | pages/StateDetail.tsx:136 | a live 100.4 gets a yellow box but a Poor label |
| StateDetail.ActivityIcon | pages/StateDetail.tsx:39-46 | Adventure, Heritage and Nature get their own icons; Spiritual, Cultural and Food get the default |
| StateDetail.CrimeTone | pages/StateDetail.tsx:176-179 | green for Low, yellow for Medium, red for High |
| StateDetail.CrimeTonesAcrossViews | pages/StateDetail.tsx:176-179 | detail page and comparison table agree except on Medium |
| StateDetail.ShowsEuropeanBreakdown | pages/StateDetail.tsx:143 | the breakdown box renders exactly when the record carries a breakdown |
| StateDetail.BreakdownAfterEnrichment | pages/StateDetail.tsx:143 | the breakdown shows after a live reading, and otherwise exactly when the static record had one |

## Left out

- The `fetch` call to the air-quality service and JSON parsing (contexts/StateContext.tsx:35-43) are network I/O. They are replaced by the `LookupOutcome` value given per record.
- The `Promise.all` fan-out, `async`/`await`, the run-once effect and `console.warn` are concurrency and side effects. Enrichment is a sequential map over the records.
- React state, context, hooks, `useMemo` and the router are framework plumbing. The comparison list and the provider are classes with plain fields.
- JSX, CSS, icons and the radar chart rendering are left out. Only the data and class choices are modelled.
- The static catalog `data/states` is not part of this model.
- `StateProfile.coordinates` is declared mandatory in types.ts. It is an `Option`, because the enrichment code handles its absence.
- The record also carries `isRealtime` and `europeanAqi`, which the enrichment adds. The pages read `europeanAqi` but never `isRealtime`: the "Real-time" caption of the detail page (pages/StateDetail.tsx:154) and the "(Live data)" caption of the comparison table (pages/Comparison.tsx:125) are unconditional, so a record whose lookup failed is still captioned as live. The flag is kept in the model but no page function reads it.
- `Types.LabelText`: a label outside the declared union is kept as the datatype value `VeryPoor`. The `as any` cast is not modelled.
- Text.LowerChar: only ASCII letters are lower-cased; the Unicode case mapping of `toLowerCase` is not modelled.
- Home.NameCompare: `localeCompare` is modelled as lexicographic order on character codes; locale collation is not modelled.
- The `default:` branch of the sort switch is unreachable with a typed key, so it is not modelled separately.
- There is no sort button for `infrastructure` (pages/Home.tsx:83-106). The key is modelled but reachable only as a value (`Home.SortButtons`).
- Scores, AQI values and percentages are `real`. JavaScript floating-point rounding, `NaN` and infinities are not modelled.
- StateContext.OrElse: `x || fallback` treats `None` and 0 as falsy; `NaN` is not modelled.
- MetricMeter.Percentage: requires a non-zero maximum, because a zero maximum gives an infinity or `NaN` in JavaScript. Every caller uses the default 10.
- StateCard.RouteId: the route match takes one non-empty segment after `/state/`. URL encoding, decoding and hash routing are not modelled.
- Comparison.ChartData: the rows are maps from record name to value, plus the axis name. The `fullMark` field of the axes is not copied into the rows, as in the source. Recharts reading the rows is not modelled.
- Comparison.BuildRow: in the source the axis name (`subject`) and the record names are keys of one object (pages/Comparison.tsx:48, 56), so a record named "subject" would overwrite the axis name. The model keeps the axis name and the per-record values apart and does not capture that collision.
- The remove buttons, per-score meters and the other table cells of the comparison view only render fields already modelled.
