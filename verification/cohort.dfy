/** Cohort loading and slider defaults (app/ui/cohort.py). */
module Cohort {
  import opened Common
  import opened PyNum
  import opened Buckets
  import opened DataSources
  import opened Sliders

  /** One configured cohort entry. `title`, `timelineLabel` and `tagline`
      are `None` when the key is absent; `path` names the distribution file. */
  datatype CohortConfig = CohortConfig(
    path: string,
    title: Option<string>,
    timelineLabel: Option<string>,
    tagline: Option<string>)

  /** A `COHORT_CONFIG` item: the display name and its entry. */
  datatype NamedConfig = NamedConfig(name: string, config: CohortConfig)

  /** `LoadedCohort`: a cohort's distribution rows and their wallet estimate. */
  datatype LoadedCohort = LoadedCohort(
    name: string,
    rows: seq<Bucket>,
    estimate: int,
    config: CohortConfig)

  /** Display names are dictionary keys, so they never repeat. */
  predicate DistinctConfigNames(configs: seq<NamedConfig>) {
    forall i, j :: 0 <= i < j < |configs| ==> configs[i].name != configs[j].name
  }

  /** The per-entry body of `load_cohort_data`. `readPayload` stands for
      reading and decoding the file at a path. */
  function LoadCohort(entry: NamedConfig, readPayload: string -> Payload): (r: Result<LoadedCohort>)
    ensures r.Err? <==> LoadDistribution(readPayload(entry.config.path)).Err?
    ensures r.Err? ==> r.error == TypeError
    ensures r.Ok? ==> r.value.name == entry.name && r.value.config == entry.config
    ensures r.Ok? ==> SortedByRank(r.value.rows)
    ensures r.Ok? ==> multiset(r.value.rows) == multiset(SelectRows(readPayload(entry.config.path)))
    ensures r.Ok? ==> r.value.estimate == EstimateOgCohortSize(SelectRows(readPayload(entry.config.path)))
    ensures r.Ok? ==> r.value.estimate == EstimateOgCohortSize(r.value.rows)
  {
    var loaded := LoadDistribution(readPayload(entry.config.path));
    if loaded.Err? then Err(loaded.error)
    else
      SortKeepsEstimate(SelectRows(readPayload(entry.config.path)));
      Ok(LoadedCohort(entry.name, loaded.value, EstimateOgCohortSize(loaded.value), entry.config))
  }

  /** `load_cohort_data`: one loaded cohort per configured entry, in order,
      keyed by the same names; a distribution `sorted` cannot order raises
      TypeError for the whole load. */
  function LoadCohortData(configs: seq<NamedConfig>, readPayload: string -> Payload): (r: Result<seq<LoadedCohort>>)
    requires DistinctConfigNames(configs)
    ensures r.Err? <==> exists i :: 0 <= i < |configs| && LoadCohort(configs[i], readPayload).Err?
    ensures r.Err? ==> r.error == TypeError
    ensures r.Ok? ==> |r.value| == |configs|
    ensures r.Ok? ==> forall i :: 0 <= i < |configs| ==>
      r.value[i] == LoadCohort(configs[i], readPayload).value
    ensures r.Ok? ==> forall i :: 0 <= i < |configs| ==>
      r.value[i].name == configs[i].name && r.value[i].config == configs[i].config
    ensures r.Ok? ==> forall i :: 0 <= i < |configs| ==>
      r.value[i].estimate == EstimateOgCohortSize(SelectRows(readPayload(configs[i].config.path)))
    ensures r.Ok? ==> forall i :: 0 <= i < |configs| ==> SortedByRank(r.value[i].rows)
    ensures r.Ok? ==> forall i, j :: 0 <= i < j < |r.value| ==> r.value[i].name != r.value[j].name
  {
    if exists i :: 0 <= i < |configs| && LoadCohort(configs[i], readPayload).Err? then Err(TypeError)
    else Ok(seq(|configs|, i requires 0 <= i < |configs| => LoadCohort(configs[i], readPayload).value))
  }

  // ---------------------------------------------------------------------
  // Slider defaults
  // ---------------------------------------------------------------------

  const SliderMin: int := 50_000
  const DefaultMid: int := 100_000
  const DefaultMax: int := 500_000

  /** The slider's upper end: 500,000, raised to 120% of a non-zero estimate
      rounded up to the slider step. */
  function SliderMax(estimate: int): (m: int)
    ensures m >= DefaultMax
    ensures estimate == 0 ==> m == DefaultMax
    ensures estimate != 0 ==> m >= RoundUpToStep(estimate as real * 1.2, SliderStep)
    ensures estimate != 0 ==> m as real >= estimate as real * 1.2
    ensures estimate != 0 ==> m == DefaultMax || m == RoundUpToStep(estimate as real * 1.2, SliderStep)
    ensures m % SliderStep == 0
  {
    if estimate == 0 then DefaultMax
    else Max(DefaultMax, RoundUpToStep(estimate as real * 1.2, SliderStep))
  }

  /** A multiple of 5,000 that is at least 47,500 is at least 50,000. */
  lemma StepAboveMin(r: int)
    requires r % SliderStep == 0 && r as real >= 47500.0
    ensures r >= SliderMin
  {
  }

  /** The anchored midpoint: the estimate (at least 50,000) rounded to the
      slider step, capped at the slider's upper end; 100,000 without an
      estimate. */
  function SliderMid(estimate: int): (mid: int)
    ensures estimate == 0 ==> mid == DefaultMid
    ensures mid % SliderStep == 0
    ensures SliderMin <= mid <= SliderMax(estimate)
    ensures estimate >= SliderMin ==> -2500 <= mid - estimate <= 2500
    ensures estimate >= SliderMin ==> mid == RoundToStep(estimate as real, SliderStep)
    ensures estimate != 0 && estimate < SliderMin ==> mid == SliderMin
  {
    if estimate == 0 then DefaultMid
    else
      var anchored := RoundToStep(Max(SliderMin, estimate) as real, SliderStep);
      StepAboveMin(anchored);
      Min(SliderMax(estimate), anchored)
  }

  /** `build_slider_defaults`: the slider options generated around the
      anchored midpoint, and that midpoint. */
  function BuildSliderDefaults(estimate: int, root: (real, int) -> real): (r: (seq<int>, int))
    ensures r.1 == SliderMid(estimate)
    ensures estimate == 0 ==> r.1 == DefaultMid
    ensures r.0 == GenerateCohortSliderOptions(SliderMin, r.1, SliderMax(estimate), 31, 30, root)
    ensures estimate == 0 ==> r.0 == GenerateCohortSliderOptions(SliderMin, DefaultMid, DefaultMax, 31, 30, root)
    ensures |r.0| >= 1 && -2500 <= r.0[0] - SliderMin <= 2500
    ensures forall i :: 0 <= i < |r.0| ==> r.0[i] % SliderStep == 0
    ensures Distinct(r.0)
  {
    var mid := SliderMid(estimate);
    (GenerateCohortSliderOptions(SliderMin, mid, SliderMax(estimate), 31, 30, root), mid)
  }
}
