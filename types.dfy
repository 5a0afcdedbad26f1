/** The records of the catalog (types.ts) as Dafny values. Numbers are `real`;
    fields that the enrichment adds at run time but the declared interface does
    not list (`isRealtime`, `europeanAqi`) are part of the record here, with
    `false` and `None` standing for "absent". */
module Types {
  import opened Common

  /** The closed set of activity kinds. */
  datatype ActivityType = Adventure | Spiritual | Cultural | Food | Nature | Heritage

  datatype Activity = Activity(
    name: string,
    city: string,
    kind: ActivityType,
    shortDescription: string,
    suggestedDuration: string)

  /** Qualitative AQI labels that the label function produces. `VeryPoor` is
      produced at run time although the declared label type omits it. */
  datatype AqiLabel = Good | Moderate | Poor | VeryPoor | Hazardous

  datatype CrimeStatus = Low | Medium | High

  datatype Coordinates = Coordinates(lat: real, lng: real)

  /** `category` is the source's `aqi.label` (`label` is a Dafny keyword). */
  datatype Aqi = Aqi(value: real, category: AqiLabel)

  /** Five European AQI sub-indices attached by the enrichment. */
  datatype EuropeanAqi = EuropeanAqi(pm2_5: real, pm10: real, no2: real, o3: real, so2: real)

  datatype StateProfile = StateProfile(
    id: string,
    name: string,
    capital: string,
    description: string,
    bestTimeToVisit: string,
    tagline: string,
    imageUrl: string,
    coordinates: Option<Coordinates>,
    languages: seq<string>,
    safetyDescription: string,
    civicSenseDescription: string,
    aqi: Aqi,
    crimeStatus: CrimeStatus,
    hospitalityScore: real,
    infrastructureScore: real,
    culturalRichnessScore: real,
    womenSafetyScore: real,
    civicSenseScore: real,
    activities: seq<Activity>,
    isRealtime: bool,
    europeanAqi: Option<EuropeanAqi>)

  /** The sort keys offered by the browse view. */
  datatype SortOption = Name | AqiValue | Safety | Culture | Infrastructure

  /** The string literal each sort key stands for in the source. */
  function SortOptionKey(o: SortOption): string {
    match o
    case Name => "name"
    case AqiValue => "aqi"
    case Safety => "safety"
    case Culture => "culture"
    case Infrastructure => "infrastructure"
  }

  /** Reading a sort key literal back; any other string is not a sort key. */
  function ParseSortOption(key: string): (r: Option<SortOption>)
    ensures r.Some? ==> SortOptionKey(r.value) == key
  {
    if key == "name" then Some(Name)
    else if key == "aqi" then Some(AqiValue)
    else if key == "safety" then Some(Safety)
    else if key == "culture" then Some(Culture)
    else if key == "infrastructure" then Some(Infrastructure)
    else None
  }

  /** Exactly five keys: every key literal parses back to its own option, so
      the five literals are pairwise distinct. */
  lemma SortOptionKeysRoundTrip(o: SortOption)
    ensures ParseSortOption(SortOptionKey(o)) == Some(o)
  {
    match o
    case Name =>
    case AqiValue =>
      assert SortOptionKey(o) != "name";
    case Safety =>
      assert SortOptionKey(o) != "name" && SortOptionKey(o) != "aqi";
    case Culture =>
      assert SortOptionKey(o) != "name" && SortOptionKey(o) != "aqi" && SortOptionKey(o) != "safety";
    case Infrastructure =>
      assert SortOptionKey(o) != "name" && SortOptionKey(o) != "aqi" && SortOptionKey(o) != "safety";
      assert SortOptionKey(o) != "culture";
  }

  /** The label text each label value stands for. */
  function LabelText(l: AqiLabel): string {
    match l
    case Good => "Good"
    case Moderate => "Moderate"
    case Poor => "Poor"
    case VeryPoor => "Very Poor"
    case Hazardous => "Hazardous"
  }

  /** The four label literals the declared `aqi.label` type admits. */
  const DeclaredAqiLabels: seq<string> := ["Good", "Moderate", "Poor", "Hazardous"]

  /** Only `VeryPoor` falls outside the declared label union. */
  lemma DeclaredLabelsExcludeVeryPoor(l: AqiLabel)
    ensures LabelText(l) in DeclaredAqiLabels <==> l != VeryPoor
  {
    if l == VeryPoor {
      assert LabelText(l) != DeclaredAqiLabels[0];
      assert LabelText(l) != DeclaredAqiLabels[1];
      assert LabelText(l) != DeclaredAqiLabels[2];
      assert LabelText(l) != DeclaredAqiLabels[3];
    }
  }

  /** The five scores are documented as lying in 0..10. */
  predicate ScoresInRange(s: StateProfile) {
    && 0.0 <= s.hospitalityScore <= 10.0
    && 0.0 <= s.infrastructureScore <= 10.0
    && 0.0 <= s.culturalRichnessScore <= 10.0
    && 0.0 <= s.womenSafetyScore <= 10.0
    && 0.0 <= s.civicSenseScore <= 10.0
  }

  /** No two catalog records share an id. */
  predicate UniqueIds(states: seq<StateProfile>) {
    forall i, j :: 0 <= i < j < |states| ==> states[i].id != states[j].id
  }
}
