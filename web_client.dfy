/**
 * The dashboard script: the state it keeps between polls (the history
 * window behind the chart, the display unit, the connection flag and the
 * time of the last good fetch) and the handlers that update it.
 *
 * The DOM is reduced to the values the script writes into it (the three
 * numbers, their unit label, the `negative` flag and the container input)
 * and the notifications it shows, which are logged in order. `fetch`,
 * `Date.now()` and `parseFloat` become parameters. Numbers are `real`;
 * `toFixed(2)` formatting is not modelled.
 */
module WebClient {

  import opened Wrappers
  import opened FluidServer

  /** `Array(30).fill(null)`: the number of points the chart shows. */
  const HISTORY_LENGTH: nat := 30
  /** Milliseconds without a good fetch before a failure is reported. */
  const LOST_AFTER_MS: int := 2000

  // ---------------------------------------------------------------------
  // The history window
  // ---------------------------------------------------------------------

  /** `updateHistory` on a value: push, then shift while longer than 30. */
  function Slide(history: seq<Option<real>>, value: Option<real>): (h: seq<Option<real>>)
    ensures |history| == HISTORY_LENGTH ==> |h| == HISTORY_LENGTH
    ensures h != [] && h[|h| - 1] == value
  {
    var pushed := history + [value];
    if |pushed| > HISTORY_LENGTH then pushed[1..] else pushed
  }

  /** The window after a series of `updateHistory` calls. */
  function Feed(history: seq<Option<real>>, values: seq<Option<real>>): seq<Option<real>>
    decreases |values|
  {
    if values == [] then history
    else Feed(Slide(history, values[0]), values[1..])
  }

  /**
   * A full window always shows the last 30 values offered to it, oldest
   * first: the values fed in, preceded by what is left of the old window.
   */
  lemma {:induction false} FeedKeepsLatest(history: seq<Option<real>>, values: seq<Option<real>>)
    requires |history| == HISTORY_LENGTH
    ensures Feed(history, values) == (history + values)[|values|..]
    decreases |values|
  {
    if values != [] {
      var next := Slide(history, values[0]);
      assert next == (history + [values[0]])[1..];
      FeedKeepsLatest(next, values[1..]);
      assert next + values[1..] == (history + values)[1..];
    }
  }

  // ---------------------------------------------------------------------
  // Units and the displayed values
  // ---------------------------------------------------------------------

  /** `currentUnit`, which only ever holds `'oz'` or `'g'`. */
  datatype Unit = Oz | Grams

  /** The unit toggle's new unit. */
  function Toggled(u: Unit): (t: Unit)
    ensures t != u
  {
    if u == Oz then Grams else Oz
  }

  /** Toggling twice restores the unit. */
  lemma ToggleTwice(u: Unit)
    ensures Toggled(Toggled(u)) == u
  {
  }

  /** The three numbers `updateUI` shows and their unit label. */
  datatype Selection = Selection(fluid: real, total: real, container: real, unitLabel: string)

  /** The fields of the report `updateUI` picks for the unit. */
  function Select(u: Unit, data: Measurements): (s: Selection)
    ensures u == Oz ==> s == Selection(data.fluidWeightOz, data.measuredWeightOz, data.containerWeightOz, "fl oz")
    ensures u == Grams ==> s == Selection(data.fluidWeightG, data.measuredWeightG, data.containerWeightG, "g")
  {
    if u == Oz then
      Selection(data.fluidWeightOz, data.measuredWeightOz, data.containerWeightOz, "fl oz")
    else
      Selection(data.fluidWeightG, data.measuredWeightG, data.containerWeightG, "g")
  }

  /**
   * Whichever unit is shown, a report the server built from consistent
   * weights displays a fluid weight equal to the total less the container.
   */
  lemma DisplayConsistent(u: Unit, current: real, input: real)
    ensures var s := Select(u, Report(current, input, current - input));
      s.fluid == s.total - s.container
  {
    ReportConsistent(current, input);
  }

  /** The notifications the script shows. */
  datatype Notice =
    | ConnectionLost
    | SwitchedTo(u: Unit)
    | InvalidWeight
    | ContainerSet(weight: real)

  /** How a `fetch('/api/measurements')` ends. */
  datatype FetchOutcome =
    | NetworkError                           // the promise rejects
    | HttpError(status: int)                 // `response.ok` is false
    | Delivered(json: Option<Measurements>)  // 2xx; `None` when the body is not JSON

  // ---------------------------------------------------------------------
  // The page state
  // ---------------------------------------------------------------------

  class Dashboard {
    var history: seq<Option<real>>
    var currentUnit: Unit
    var isConnected: bool
    var lastUpdate: int
    /** The text of the `container-weight` input. */
    var containerInput: string
    /** What the value elements show; `None` until the first update. */
    var shown: Option<Selection>
    /** Whether the fluid value carries the `negative` class. */
    var negative: bool
    /** The notifications shown so far, oldest first. */
    var notices: seq<Notice>

    ghost predicate Valid()
      reads this
    {
      |history| == HISTORY_LENGTH
    }

    /** The script's globals when the page loads at time `now`. */
    constructor (now: int, input: string)
      ensures Valid()
      ensures forall i :: 0 <= i < |history| ==> history[i] == None
      ensures currentUnit == Oz && !isConnected && lastUpdate == now
      ensures containerInput == input && shown == None && !negative && notices == []
    {
      history := seq(HISTORY_LENGTH, _ => None);
      currentUnit := Oz;
      isConnected := false;
      lastUpdate := now;
      containerInput := input;
      shown := None;
      negative := false;
      notices := [];
    }

    /** `updateHistory(value)`, on the array itself. */
    method UpdateHistory(value: Option<real>)
      requires Valid()
      modifies this`history
      ensures Valid()
      ensures history == Slide(old(history), value)
      ensures history == old(history)[1..] + [value]
    {
      history := history + [value];
      if |history| > HISTORY_LENGTH {
        history := history[1..];
      }
    }

    /** The unit toggle's click handler. */
    method ToggleUnit()
      modifies this`currentUnit, this`notices
      ensures currentUnit == Toggled(old(currentUnit))
      ensures notices == old(notices) + [SwitchedTo(currentUnit)]
    {
      currentUnit := Toggled(currentUnit);
      notices := notices + [SwitchedTo(currentUnit)];
    }

    /** `updateUI(data)`. */
    method UpdateUI(data: Option<Measurements>)
      requires Valid()
      modifies this`shown, this`history, this`negative
      ensures Valid()
      ensures data.None? ==> shown == old(shown) && history == old(history) && negative == old(negative)
      ensures data.Some? ==> shown == Some(Select(currentUnit, data.value))
      ensures data.Some? ==> history == Slide(old(history), Some(shown.value.fluid))
      ensures data.Some? ==> (negative <==> shown.value.fluid < 0.0)
    {
      if data.None? {
        return;
      }
      var selection := Select(currentUnit, data.value);
      shown := Some(selection);
      UpdateHistory(Some(selection.fluid));
      if selection.fluid < 0.0 {
        negative := true;
      } else {
        negative := false;
      }
    }

    /**
     * The set-container handler; `parsed` is `parseFloat` of the input,
     * `None` for NaN. The input is cleared only when the weight is accepted.
     */
    method SetContainer(parsed: Option<real>)
      modifies this`containerInput, this`notices
      ensures parsed.None? || parsed.value < 0.0 ==>
        notices == old(notices) + [InvalidWeight] && containerInput == old(containerInput)
      ensures parsed.Some? && parsed.value >= 0.0 ==>
        notices == old(notices) + [ContainerSet(parsed.value)] && containerInput == ""
    {
      if parsed.None? || parsed.value < 0.0 {
        notices := notices + [InvalidWeight];
        return;
      }
      notices := notices + [ContainerSet(parsed.value)];
      containerInput := "";
    }

    /**
     * `fetchMeasurements()`. The clock is read twice: `now` when a response
     * arrives, `failedAt` when the catch block runs. A response whose body
     * is not JSON fails after `lastUpdate` was refreshed to `now`, so it is
     * reported as lost only when parsing ended more than 2000 ms later.
     */
    method FetchMeasurements(outcome: FetchOutcome, now: int, failedAt: int) returns (data: Option<Measurements>)
      modifies this`isConnected, this`lastUpdate, this`notices
      ensures isConnected <==> data.Some?
      ensures data.Some? <==> outcome.Delivered? && outcome.json.Some?
      ensures data.Some? ==> data == outcome.json
      ensures outcome.Delivered? ==> lastUpdate == now
      ensures !outcome.Delivered? ==> lastUpdate == old(lastUpdate)
      ensures notices == old(notices) + [ConnectionLost] || notices == old(notices)
      ensures notices == old(notices) + [ConnectionLost] <==> data.None? && failedAt - lastUpdate > LOST_AFTER_MS
    {
      if outcome.Delivered? {
        isConnected := true;
        lastUpdate := now;
        if outcome.json.Some? {
          return outcome.json;
        }
      }
      isConnected := false;
      if failedAt - lastUpdate > LOST_AFTER_MS {
        notices := notices + [ConnectionLost];
      }
      return None;
    }

    /** One tick of the one-second poll: fetch, then update the page. */
    method Poll(outcome: FetchOutcome, now: int, failedAt: int)
      requires Valid()
      modifies this
      ensures Valid()
      ensures currentUnit == old(currentUnit) && containerInput == old(containerInput)
      ensures isConnected <==> outcome.Delivered? && outcome.json.Some?
      ensures isConnected ==> shown == Some(Select(currentUnit, outcome.json.value))
      ensures isConnected ==> history == Slide(old(history), Some(shown.value.fluid))
      ensures isConnected ==> (negative <==> shown.value.fluid < 0.0)
      ensures !isConnected ==> history == old(history) && shown == old(shown) && negative == old(negative)
      ensures lastUpdate == if outcome.Delivered? then now else old(lastUpdate)
      ensures notices == old(notices) + [ConnectionLost] || notices == old(notices)
      ensures notices == old(notices) + [ConnectionLost] <==> !isConnected && failedAt - lastUpdate > LOST_AFTER_MS
    {
      var data := FetchMeasurements(outcome, now, failedAt);
      UpdateUI(data);
    }
  }
}
