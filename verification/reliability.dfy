/** The calculator's working state and the reliability calculation that
    replaces its result record. The reactive fields of the `useReliabilityCalc`
    composable become one immutable `Calculator` value; an operation returns
    the next value. */
module Reliability {
  import opened Components
  import opened FailureRate
  import opened Curve

  datatype Option<T> = None | Some(value: T)

  /** The result of a calculation. `mtbf` is `None` where the division
      `1 / totalFailureRate` has no real value (a zero total). */
  datatype CalculationResult = CalculationResult(
    totalFailureRate: real,
    systemReliability: real,
    mtbf: Option<real>,
    curveData: seq<CurvePoint>,
    hasResults: bool)

  /** One entry of the environment selector: a label and its factor. */
  datatype EnvironmentOption = EnvironmentOption(name: string, value: real)

  /** The working state of the calculator. */
  datatype Calculator = Calculator(
    systemName: string,
    missionTime: real,
    environmentFactor: real,
    components: seq<Component>,
    results: CalculationResult)

  const EnvironmentOptions: seq<EnvironmentOption> := [
    EnvironmentOption("实验室", 1.0),
    EnvironmentOption("地面固定", 2.0),
    EnvironmentOption("车载", 4.0),
    EnvironmentOption("机载", 8.0),
    EnvironmentOption("舰载", 10.0)
  ]

  /** Label used when the factor matches no option. */
  const UnknownLabel: string := "未知"

  /** The empty result the calculator starts with (useReliabilityCalc.js:41-47). */
  const NoResults: CalculationResult := CalculationResult(0.0, 0.0, Some(0.0), [], false)

  /** The state the calculator starts in (useReliabilityCalc.js:5-7, 25-47). */
  const InitialCalculator: Calculator := Calculator(
    "电源控制系统",
    1000.0,
    2.0,
    [Component("电阻", 10, 0.000001, "10kΩ 碳膜电阻"),
     Component("集成电路", 2, 0.00001, "运算放大器")],
    NoResults)

  /** `1 / total`, undefined (the source's Infinity) at zero. */
  function Mtbf(total: real): (r: Option<real>)
    ensures r.None? <==> total == 0.0
    ensures r.Some? ==> r.value * total == 1.0
  {
    if total == 0.0 then None else Some(1.0 / total)
  }

  /** `calculateReliability`: computes a fresh result from the components, the
      environment factor and the mission time, and replaces the previous one. */
  function CalculateReliability(exp: real -> real, st: Calculator): (st': Calculator)
    ensures st'.systemName == st.systemName && st'.missionTime == st.missionTime
    ensures st'.environmentFactor == st.environmentFactor && st'.components == st.components
    ensures st'.results.hasResults
    ensures st'.results.totalFailureRate == SumRates(st.components, st.environmentFactor)
    ensures st'.results.systemReliability == ReliabilityAt(exp, st'.results.totalFailureRate, st.missionTime)
    ensures st'.results.totalFailureRate != 0.0 ==>
              st'.results.mtbf.Some? && st'.results.mtbf.value * st'.results.totalFailureRate == 1.0
    ensures st'.results.totalFailureRate == 0.0 ==> st'.results.mtbf.None?
    ensures |st'.results.curveData| == 51
    ensures forall i :: 0 <= i < |st'.results.curveData| ==>
              st'.results.curveData[i].time == TimeStep * i
              && st'.results.curveData[i].reliability
                 == ReliabilityAt(exp, st'.results.totalFailureRate, st'.results.curveData[i].time as real)
  {
    var total := TotalFailureRate(st.components, st.environmentFactor);
    var result := CalculationResult(
      total,
      ReliabilityAt(exp, total, st.missionTime),
      Mtbf(total),
      GenerateCurveData(exp, total, DefaultTimeRange),
      true);
    st.(results := result)
  }

  /** The new result depends only on the inputs, never on the previous result. */
  lemma CalculationIgnoresPreviousResults(exp: real -> real, st: Calculator, old_results: CalculationResult)
    ensures CalculateReliability(exp, st.(results := old_results)) == CalculateReliability(exp, st)
  {
  }

  /** Recalculating without changing the inputs changes nothing. */
  lemma CalculationIdempotent(exp: real -> real, st: Calculator)
    ensures CalculateReliability(exp, CalculateReliability(exp, st)) == CalculateReliability(exp, st)
  {
  }

  /** With valid components and a positive factor the total is positive, so
      the MTBF is defined and positive. */
  lemma ValidInputsGiveFiniteMtbf(exp: real -> real, st: Calculator)
    requires AllValid(st.components) && st.components != [] && st.environmentFactor > 0.0
    ensures CalculateReliability(exp, st).results.totalFailureRate > 0.0
    ensures CalculateReliability(exp, st).results.mtbf.Some?
    ensures CalculateReliability(exp, st).results.mtbf.value > 0.0
  {
    ValidTotalPositive(st.components, st.environmentFactor);
  }

  /** The first option whose factor equals `factor`, as the `find` call does. */
  function FindLabel(options: seq<EnvironmentOption>, factor: real): (r: Option<string>)
    ensures r.None? <==> forall i :: 0 <= i < |options| ==> options[i].value != factor
    ensures r.Some? ==> exists i :: 0 <= i < |options| && options[i].value == factor
                          && options[i].name == r.value
                          && forall j :: 0 <= j < i ==> options[j].value != factor
    decreases |options|
  {
    if options == [] then None
    else if options[0].value == factor then Some(options[0].name)
    else
      var r := FindLabel(options[1..], factor);
      assert forall i :: 1 <= i < |options| ==> options[i] == options[1..][i - 1];
      r
  }

  /** `environmentOptions.find(...)?.label || '未知'`: the matching label, or the
      unknown label when nothing matches or the label is empty (falsy). */
  function EnvironmentLabel(factor: real): (r: string)
    ensures (forall i :: 0 <= i < |EnvironmentOptions| ==> EnvironmentOptions[i].value != factor) ==> r == UnknownLabel
  {
    match FindLabel(EnvironmentOptions, factor)
    case Some(name) => if name != "" then name else UnknownLabel
    case None => UnknownLabel
  }

  /** Options whose factors are pairwise distinct. */
  predicate DistinctValues(options: seq<EnvironmentOption>) {
    forall i, j :: 0 <= i < j < |options| ==> options[i].value != options[j].value
  }

  /** When factors are distinct, looking up an option's factor finds that option. */
  lemma {:induction false} FindLabelOfDistinct(options: seq<EnvironmentOption>, i: int)
    requires DistinctValues(options)
    requires 0 <= i < |options|
    ensures FindLabel(options, options[i].value) == Some(options[i].name)
    decreases |options|
  {
    if i > 0 {
      assert options[0].value != options[i].value;
      assert options[1..][i - 1] == options[i];
      FindLabelOfDistinct(options[1..], i - 1);
    }
  }

  /** Each selectable environment's factor is labelled with that environment's name. */
  lemma EnvironmentLabelOfOption(i: int)
    requires 0 <= i < |EnvironmentOptions|
    ensures EnvironmentLabel(EnvironmentOptions[i].value) == EnvironmentOptions[i].name
  {
    assert DistinctValues(EnvironmentOptions);
    FindLabelOfDistinct(EnvironmentOptions, i);
  }
}
