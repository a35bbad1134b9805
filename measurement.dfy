/**
 * The measurement server around the HX711 driver: the weights shared
 * between the measurement loop and the web handler, the handler's routing
 * and JSON report, and the start-up decision of `main`.
 *
 * Weights are `float` in the program and `real` here, without rounding.
 * The measurement thread and the mutex are not modelled: the locked block
 * that publishes a weight is one method, and the locked block that reports
 * the weights is another.
 */
module FluidServer {

  import opened Wrappers
  import opened StdString
  import opened Hx711
  import opened WifiSetup

  // ---------------------------------------------------------------------
  // ends_with
  // ---------------------------------------------------------------------

  /** `ends_with(s, suffix)`: compare the last `|suffix|` characters of `s`. */
  function EndsWith(s: string, suffix: string): (b: bool)
    ensures |suffix| > |s| ==> !b
    ensures suffix == [] ==> b
  {
    if |s| < |suffix| then false
    else s[|s| - |suffix|..] == suffix
  }

  /** `s` ends with `suffix` exactly when `s` is some text followed by `suffix`. */
  lemma EndsWithIffConcat(s: string, suffix: string)
    ensures EndsWith(s, suffix) <==> exists prefix :: s == prefix + suffix
  {
    if EndsWith(s, suffix) {
      assert s == s[..|s| - |suffix|] + suffix;
    }
    if exists prefix :: s == prefix + suffix {
      var prefix :| s == prefix + suffix;
      assert s[|s| - |suffix|..] == suffix;
    }
  }

  /** A suffix of a suffix is a suffix. */
  lemma EndsWithTransitive(s: string, t: string, u: string)
    requires EndsWith(s, t) && EndsWith(t, u)
    ensures EndsWith(s, u)
  {
    assert s[|s| - |t|..] == t;
    assert s[|s| - |u|..] == t[|t| - |u|..];
  }

  // ---------------------------------------------------------------------
  // The shared weights
  // ---------------------------------------------------------------------

  /** `gramsToFluidOunces`. */
  const GRAMS_TO_FLUID_OUNCES: real := 0.03527396

  /** The six numbers of the `/api/measurements` JSON object, in its order. */
  datatype Measurements = Measurements(
    measuredWeightG: real,
    measuredWeightOz: real,
    containerWeightG: real,
    containerWeightOz: real,
    fluidWeightG: real,
    fluidWeightOz: real)

  /** The report built from the three shared weights, each also in ounces. */
  function Report(current: real, input: real, net: real): (m: Measurements)
    ensures m.measuredWeightG == current && m.containerWeightG == input && m.fluidWeightG == net
  {
    Measurements(
      current, current * GRAMS_TO_FLUID_OUNCES,
      input, input * GRAMS_TO_FLUID_OUNCES,
      net, net * GRAMS_TO_FLUID_OUNCES)
  }

  /**
   * A report of consistent weights is consistent in both units: the fluid
   * is the measured weight less the container, in grams and in ounces.
   */
  lemma ReportConsistent(current: real, input: real)
    ensures var m := Report(current, input, current - input);
      && m.fluidWeightG == m.measuredWeightG - m.containerWeightG
      && m.fluidWeightOz == m.measuredWeightOz - m.containerWeightOz
  {
    var m := Report(current, input, current - input);
    calc {
      m.fluidWeightOz;
      (current - input) * GRAMS_TO_FLUID_OUNCES;
      current * GRAMS_TO_FLUID_OUNCES - input * GRAMS_TO_FLUID_OUNCES;
    }
  }

  /** The globals `inputWeight`, `currentWeight` and `netWeight`. */
  class WeightState {
    var inputWeight: real
    var currentWeight: real
    var netWeight: real

    /** The net weight is the current weight less the container's. */
    ghost predicate Consistent()
      reads this
    {
      netWeight == currentWeight - inputWeight
    }

    /** The globals' initial values. */
    constructor ()
      ensures inputWeight == 0.0 && currentWeight == 0.0 && netWeight == 0.0
      ensures Consistent()
    {
      inputWeight := 0.0;
      currentWeight := 0.0;
      netWeight := 0.0;
    }

    /** The locked block of the measurement loop: publish a new weight. */
    method Publish(weight: real)
      modifies this`currentWeight, this`netWeight
      ensures currentWeight == weight
      ensures netWeight == weight - inputWeight
      ensures inputWeight == old(inputWeight)
      ensures Consistent()
    {
      currentWeight := weight;
      netWeight := weight - inputWeight;
    }

    /** The locked block of the handler: the report of the weights as they are. */
    method Snapshot() returns (m: Measurements)
      ensures m == Report(currentWeight, inputWeight, netWeight)
      ensures Consistent() ==> m.fluidWeightG == m.measuredWeightG - m.containerWeightG
      ensures Consistent() ==> m.fluidWeightOz == m.measuredWeightOz - m.containerWeightOz
    {
      m := Measurements(
        currentWeight, currentWeight * GRAMS_TO_FLUID_OUNCES,
        inputWeight, inputWeight * GRAMS_TO_FLUID_OUNCES,
        netWeight, netWeight * GRAMS_TO_FLUID_OUNCES);
      if Consistent() {
        ReportConsistent(currentWeight, inputWeight);
      }
    }
  }

  /** `calibration_factor`. */
  const CALIBRATION_FACTOR: real := -1100.0
  /** The default argument of `tare()`. */
  const TARE_READS: int := 10
  /** The argument of `get_units` in the measurement loop. */
  const MEASUREMENT_READS: int := 5

  /**
   * The start of operational mode: a new driver, the calibration factor,
   * and a tare over ten reads. The driver keeps its initial `GAIN` of 128,
   * so each of the ten reads drives 24 + 128 clock pulses.
   */
  method InitScale(frames: seq<seq<bool>>) returns (scale: HX711)
    requires Frames(frames) && |frames| == TARE_READS
    ensures fresh(scale) && scale.Valid()
    ensures scale.scale == CALIBRATION_FACTOR
    ensures scale.offset == Average(frames, TARE_READS)
    ensures scale.gain == DEFAULT_GAIN
    ensures scale.pulses == TARE_READS * 152
  {
    scale := new HX711();
    scale.SetScale(CALIBRATION_FACTOR);
    scale.Tare(TARE_READS, frames);
  }

  /**
   * One pass of the measurement loop: a weight averaged over five reads is
   * published, and the net weight follows it.
   */
  method MeasureOnce(scale: HX711, state: WeightState, frames: seq<seq<bool>>)
    requires scale.Valid() && scale.scale != 0.0
    requires Frames(frames) && |frames| == MEASUREMENT_READS
    modifies scale`pulses, state`currentWeight, state`netWeight
    ensures state.currentWeight == Units(Average(frames, MEASUREMENT_READS), scale.offset, scale.scale)
    ensures state.netWeight == state.currentWeight - state.inputWeight
    ensures state.inputWeight == old(state.inputWeight)
    ensures scale.pulses == old(scale.pulses) + MEASUREMENT_READS * (DATA_BITS + scale.gain)
  {
    var weight := scale.GetUnits(MEASUREMENT_READS, frames);
    state.Publish(weight);
  }

  /**
   * Nothing in the server changes `inputWeight`: after any run of the
   * measurement loop on freshly initialised weights, the net weight
   * reported is the measured weight.
   */
  method MeasureRun(weights: seq<real>) returns (state: WeightState)
    ensures fresh(state) && state.Consistent()
    ensures state.inputWeight == 0.0
    ensures state.netWeight == state.currentWeight
    ensures weights != [] ==> state.currentWeight == weights[|weights| - 1]
  {
    state := new WeightState();
    var i := 0;
    while i < |weights|
      invariant 0 <= i <= |weights|
      invariant state.inputWeight == 0.0 && state.Consistent()
      invariant i > 0 ==> state.currentWeight == weights[i - 1]
    {
      state.Publish(weights[i]);
      i := i + 1;
    }
  }

  // ---------------------------------------------------------------------
  // handle_request
  // ---------------------------------------------------------------------

  /** What `handle_request` returns. */
  datatype Reply =
    | Accept             // MHD_YES, no response queued
    | Refuse             // MHD_NO: the connection is closed
    | Json(m: Measurements)  // 200 with the JSON report

  const MEASUREMENTS_URL := "/api/measurements"

  /**
   * `handle_request`: the first call on a connection only marks it; later
   * calls refuse anything but GET, answer `/api/measurements` with the
   * report, and accept every other url without a response.
   */
  function Route(firstCall: bool, verb: string, url: string, report: Measurements): (r: Reply)
    ensures firstCall ==> r == Accept
    ensures r == Refuse <==> !firstCall && verb != "GET"
    ensures r.Json? <==> !firstCall && verb == "GET" && url == MEASUREMENTS_URL
    ensures r.Json? ==> r.m == report
  {
    if firstCall then Accept
    else if verb != "GET" then Refuse
    else if url == MEASUREMENTS_URL then Json(report)
    else Accept
  }

  /**
   * The handler on the shared weights. The report is read under the lock
   * and routed; it reaches the reply only on the `/api/measurements` route.
   */
  method HandleRequest(firstCall: bool, verb: string, url: string, state: WeightState)
    returns (r: Reply)
    requires state.Consistent()
    ensures r == Route(firstCall, verb, url, Report(state.currentWeight, state.inputWeight, state.netWeight))
    ensures r.Json? ==> r.m.fluidWeightG == r.m.measuredWeightG - r.m.containerWeightG
  {
    var m := state.Snapshot();
    r := Route(firstCall, verb, url, m);
  }

  // ---------------------------------------------------------------------
  // main
  // ---------------------------------------------------------------------

  /** The observable steps of `main`, in order. */
  datatype Step =
    | StartApMode
    | GpioInitialise
    | NewScale
    | SetScale(factor: real)
    | Tare(times: int)
    | StartDaemon
    | DeleteScale
    | StartMeasuring
    | StopMeasuring
    | StopDaemon
    | GpioTerminate

  datatype Run = Run(steps: seq<Step>, exitCode: int)

  /**
   * What `main` does given whether Wi-Fi is configured, the status
   * `gpioInitialise` returns and whether the web server starts; an
   * operational run ends when a line is read from standard input.
   */
  function Startup(configured: bool, gpioStatus: int, daemonStarted: bool): (run: Run)
    ensures run.exitCode == 0 || run.exitCode == 1
    ensures run.exitCode == 1 <==> configured && (gpioStatus == -1 || !daemonStarted)
    ensures !configured <==> run.steps == [StartApMode]
    ensures NewScale in run.steps <==> configured && gpioStatus != -1
    ensures StartMeasuring in run.steps <==> configured && gpioStatus != -1 && daemonStarted
    ensures GpioTerminate in run.steps <==> StartMeasuring in run.steps
  {
    if !configured then
      Run([StartApMode], 0)
    else if gpioStatus == -1 then
      Run([GpioInitialise], 1)
    else
      var init := [GpioInitialise, NewScale, SetScale(CALIBRATION_FACTOR), Tare(TARE_READS), StartDaemon];
      if !daemonStarted then
        Run(init + [DeleteScale], 1)
      else
        Run(init + [StartMeasuring, StopMeasuring, StopDaemon, DeleteScale, GpioTerminate], 0)
  }

  /**
   * Once the setup server has written a configuration, the next boot does
   * not go back to setup mode: it initialises the hardware, and only a
   * hardware or server failure stops it from measuring.
   */
  lemma BootAfterSetup(c: Credentials, gpioStatus: int, daemonStarted: bool)
    ensures var run := Startup(ConfiguredLines(FileLines(Some(WpaConfig(c)))), gpioStatus, daemonStarted);
      && StartApMode !in run.steps
      && (StartMeasuring in run.steps <==> gpioStatus != -1 && daemonStarted)
  {
    WrittenConfigIsConfigured(c);
  }
}
