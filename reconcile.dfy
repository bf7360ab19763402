/**
  The pure updaters of the dashboard's snapshot (Frontend/src/pages/Index.tsx): the functions
  the page passes to its state setters when a list response, a per-entity detail result or a
  command result arrives, the capped activity log, the energy-saved figure, and the string
  tests that classify errors.
*/
module Reconcile {
  import opened Wrappers
  import opened Text
  import opened Seqs
  import opened Entities
  import opened Units

  // ----- Looking up the previous snapshot (`prev.find(x => x.id === id)`) -----

  /** `l.find(x => x.id === id)`: the first entry whose id (as `idOf` reads it) is `id`. */
  function Find<T(==)>(l: seq<T>, id: string, idOf: T -> string): (r: Option<T>)
    ensures r.None? <==> forall i :: 0 <= i < |l| ==> idOf(l[i]) != id
    ensures r.Some? ==> exists i :: 0 <= i < |l| && l[i] == r.value && idOf(l[i]) == id
                                    && forall j :: 0 <= j < i ==> idOf(l[j]) != id
  {
    if |l| == 0 then None
    else if idOf(l[0]) == id then Some(l[0])
    else
      var r := Find(l[1..], id, idOf);
      assert forall i :: 1 <= i < |l| ==> l[i] == l[1..][i - 1];
      r
  }

  function SensorId(s: Sensor): string { s.id }

  function ActuatorId(a: Actuator): string { a.id }

  // ----- Merging a sensor list response -----

  /** `existing?.lastSample`: the sample of the first earlier entry with this id. */
  function PreviousSample(prev: seq<Sensor>, id: string): Option<Sample> {
    match Find(prev, id, SensorId)
    case Some(s) => s.lastSample
    case None => None
  }

  /** One listed sensor as it enters the snapshot: unit from its name, sample from the previous snapshot. */
  function EnrichSensor(prev: seq<Sensor>, s: Sensor): Sensor {
    s.(unit := UnitForDataType(s.dataType, s.name), lastSample := PreviousSample(prev, s.id))
  }

  function EnrichSensors(prev: seq<Sensor>, resp: seq<Sensor>): (r: seq<Sensor>)
    ensures |r| == |resp|
    ensures forall i :: 0 <= i < |resp| ==> r[i] == EnrichSensor(prev, resp[i])
  {
    if |resp| == 0 then [] else [EnrichSensor(prev, resp[0])] + EnrichSensors(prev, resp[1..])
  }

  /** The sensors after a list response: an empty response keeps the snapshot. */
  function SensorsAfterList(prev: seq<Sensor>, resp: seq<Sensor>): seq<Sensor> {
    if |resp| > 0 then EnrichSensors(prev, resp) else prev
  }

  /**
    An empty response leaves the sensors exactly as they were; a non-empty one yields exactly the
    response's sensors in response order, each with the unit its name selects and the last sample
    of the first previous entry with its id, or none when the id is new.
  */
  lemma SensorListMerge(prev: seq<Sensor>, resp: seq<Sensor>)
    ensures |resp| == 0 ==> SensorsAfterList(prev, resp) == prev
    ensures |resp| > 0 ==> |SensorsAfterList(prev, resp)| == |resp|
    ensures |resp| > 0 ==> forall i :: 0 <= i < |resp| ==>
      var s := SensorsAfterList(prev, resp)[i];
      && s.id == resp[i].id && s.name == resp[i].name && s.dataType == resp[i].dataType
      && s.unit == UnitForDataType(resp[i].dataType, resp[i].name)
      && ((forall j :: 0 <= j < |prev| ==> prev[j].id != resp[i].id) ==> s.lastSample == None)
      && (forall j :: 0 <= j < |prev| && prev[j].id == resp[i].id && (forall l :: 0 <= l < j ==> prev[l].id != resp[i].id)
            ==> s.lastSample == prev[j].lastSample)
  {
    if |resp| > 0 {
      forall i | 0 <= i < |resp| ensures
        var s := SensorsAfterList(prev, resp)[i];
        && ((forall j :: 0 <= j < |prev| ==> prev[j].id != resp[i].id) ==> s.lastSample == None)
        && (forall j :: 0 <= j < |prev| && prev[j].id == resp[i].id && (forall l :: 0 <= l < j ==> prev[l].id != resp[i].id)
              ==> s.lastSample == prev[j].lastSample)
      {
        var f := Find(prev, resp[i].id, SensorId);
        if f.Some? {
          var k :| 0 <= k < |prev| && prev[k] == f.value && prev[k].id == resp[i].id
                   && forall j :: 0 <= j < k ==> prev[j].id != resp[i].id;
          forall j | 0 <= j < |prev| && prev[j].id == resp[i].id && (forall l :: 0 <= l < j ==> prev[l].id != resp[i].id)
            ensures j == k
          {
          }
        }
      }
    }
  }

  /** As written, any sample carried by the list response is discarded: only the previous snapshot's counts. */
  lemma ListedSampleDiscarded(prev: seq<Sensor>, s: Sensor, carried: Option<Sample>)
    ensures EnrichSensor(prev, s.(lastSample := carried)) == EnrichSensor(prev, s)
  {
  }

  // ----- Merging an actuator list response -----

  /** The state a listed actuator gets when neither the response nor the snapshot has one. */
  function DefaultState(dataType: string): CommandValue {
    if dataType == BOOLEAN then Bool(false) else Num(0.0)
  }

  function ActuatorUnit(dataType: string): string {
    if dataType == BOOLEAN then "on/off" else "value"
  }

  /** One listed actuator as it enters the snapshot: response state, else previous state, else the default. */
  function MergeActuator(prev: seq<Actuator>, a: Actuator): Actuator {
    var existing := Find(prev, a.id, ActuatorId);
    var state :=
      if a.state != Undefined then a.state
      else if existing.Some? && existing.value.state != Undefined then existing.value.state
      else DefaultState(a.dataType);
    a.(unit := ActuatorUnit(a.dataType), state := state)
  }

  function MergeActuators(prev: seq<Actuator>, resp: seq<Actuator>): (r: seq<Actuator>)
    ensures |r| == |resp|
    ensures forall i :: 0 <= i < |resp| ==> r[i] == MergeActuator(prev, resp[i])
  {
    if |resp| == 0 then [] else [MergeActuator(prev, resp[0])] + MergeActuators(prev, resp[1..])
  }

  /** The actuators after a list response: an empty response keeps the snapshot. */
  function ActuatorsAfterList(prev: seq<Actuator>, resp: seq<Actuator>): seq<Actuator> {
    if |resp| > 0 then MergeActuators(prev, resp) else prev
  }

  /**
    An empty response leaves the actuators unchanged; a non-empty one yields exactly the response's
    actuators in order, with unit "on/off" for BOOLEAN and "value" otherwise, and a state that is
    always defined: the response's if it has one, else that of the first previous entry with the id
    if defined, else false for BOOLEAN and 0 otherwise.
  */
  lemma ActuatorListMerge(prev: seq<Actuator>, resp: seq<Actuator>)
    ensures |resp| == 0 ==> ActuatorsAfterList(prev, resp) == prev
    ensures |resp| > 0 ==> |ActuatorsAfterList(prev, resp)| == |resp|
    ensures |resp| > 0 ==> forall i :: 0 <= i < |resp| ==>
      var a := ActuatorsAfterList(prev, resp)[i];
      && a.id == resp[i].id && a.name == resp[i].name && a.dataType == resp[i].dataType
      && a.unit == (if resp[i].dataType == BOOLEAN then "on/off" else "value")
      && a.state != Undefined
      && (resp[i].state != Undefined ==> a.state == resp[i].state)
      && (resp[i].state == Undefined && (forall j :: 0 <= j < |prev| ==> prev[j].id != resp[i].id) ==>
            a.state == (if resp[i].dataType == BOOLEAN then Bool(false) else Num(0.0)))
      && (forall j :: 0 <= j < |prev| && prev[j].id == resp[i].id && (forall l :: 0 <= l < j ==> prev[l].id != resp[i].id)
            ==> resp[i].state == Undefined ==>
              a.state == (if prev[j].state != Undefined then prev[j].state
                          else if resp[i].dataType == BOOLEAN then Bool(false) else Num(0.0)))
  {
    if |resp| > 0 {
      forall i | 0 <= i < |resp| ensures
        var a := ActuatorsAfterList(prev, resp)[i];
        (forall j :: 0 <= j < |prev| && prev[j].id == resp[i].id && (forall l :: 0 <= l < j ==> prev[l].id != resp[i].id)
            ==> resp[i].state == Undefined ==>
              a.state == (if prev[j].state != Undefined then prev[j].state
                          else if resp[i].dataType == BOOLEAN then Bool(false) else Num(0.0)))
      {
        var f := Find(prev, resp[i].id, ActuatorId);
        if f.Some? {
          var k :| 0 <= k < |prev| && prev[k] == f.value && prev[k].id == resp[i].id
                   && forall j :: 0 <= j < k ==> prev[j].id != resp[i].id;
          forall j | 0 <= j < |prev| && prev[j].id == resp[i].id && (forall l :: 0 <= l < j ==> prev[l].id != resp[i].id)
            ensures j == k
          {
          }
        }
      }
    }
  }

  // ----- Per-entity detail results -----

  /** `prev.map(s => s.id === id ? { ...s, lastSample: sample } : s)`. */
  function WithSample(l: seq<Sensor>, id: string, sample: Sample): (r: seq<Sensor>)
    ensures |r| == |l|
    ensures forall i :: 0 <= i < |l| ==> r[i] == if l[i].id == id then l[i].(lastSample := Some(sample)) else l[i]
  {
    if |l| == 0 then []
    else [if l[0].id == id then l[0].(lastSample := Some(sample)) else l[0]] + WithSample(l[1..], id, sample)
  }

  /** `prev.map(a => a.id === id ? { ...a, state } : a)`. */
  function WithState(l: seq<Actuator>, id: string, state: ActuatorState): (r: seq<Actuator>)
    ensures |r| == |l|
    ensures forall i :: 0 <= i < |l| ==> r[i] == if l[i].id == id then l[i].(state := state) else l[i]
  {
    if |l| == 0 then []
    else [if l[0].id == id then l[0].(state := state) else l[0]] + WithState(l[1..], id, state)
  }

  /** `prev.map(a => a.id === id ? replacement : a)`: the matching entry is replaced wholesale. */
  function WithActuator(l: seq<Actuator>, id: string, replacement: Actuator): (r: seq<Actuator>)
    ensures |r| == |l|
    ensures forall i :: 0 <= i < |l| ==> r[i] == if l[i].id == id then replacement else l[i]
  {
    if |l| == 0 then []
    else [if l[0].id == id then replacement else l[0]] + WithActuator(l[1..], id, replacement)
  }

  /** A later update of the same id overrides an earlier one: last write wins. */
  lemma WithSampleLastWins(l: seq<Sensor>, id: string, a: Sample, b: Sample)
    ensures WithSample(WithSample(l, id, a), id, b) == WithSample(l, id, b)
  {
  }

  /** Updates of different ids commute. */
  lemma WithStateCommutes(l: seq<Actuator>, id1: string, v1: ActuatorState, id2: string, v2: ActuatorState)
    requires id1 != id2
    ensures WithState(WithState(l, id1, v1), id2, v2) == WithState(WithState(l, id2, v2), id1, v1)
  {
  }

  function CelsiusToFahrenheit(c: real): real {
    c * 9.0 / 5.0 + 32.0
  }

  /** `convertSensorValue`: a sample for a sensor shown in °F is converted from Celsius. */
  function ConvertSample(s: Sample, sensor: Sensor): Sample {
    if sensor.unit == "°F" then s.(value := CelsiusToFahrenheit(s.value)) else s
  }

  /** The outcome of one `getSensorSamples` call: it threw, or it returned samples, newest first. */
  datatype SamplesResult = SamplesThrown | SamplesReturned(data: seq<Sample>)

  /** The outcome of one `getActuatorState` call: it threw, or it returned a state (possibly undefined). */
  datatype StateResult = StateThrown | StateReturned(state: ActuatorState)

  /** Applying one sample result for `target`: only a non-empty response writes, with its newest sample. */
  function AfterSamples(l: seq<Sensor>, target: Sensor, result: SamplesResult): seq<Sensor> {
    match result
    case SamplesReturned(data) => if |data| > 0 then WithSample(l, target.id, ConvertSample(data[0], target)) else l
    case SamplesThrown => l
  }

  /** Applying one state result for `target`: only a defined state writes. */
  function AfterState(l: seq<Actuator>, target: Actuator, result: StateResult): seq<Actuator> {
    match result
    case StateReturned(state) => if state != Undefined then WithState(l, target.id, state) else l
    case StateThrown => l
  }

  /**
    A detail result changes at most the entries whose id is the target's, and only their sample:
    length, order, ids and every other entry are untouched. An empty or thrown result changes nothing.
  */
  lemma SampleDetailIsLocal(l: seq<Sensor>, target: Sensor, result: SamplesResult)
    ensures |AfterSamples(l, target, result)| == |l|
    ensures forall i :: 0 <= i < |l| ==> AfterSamples(l, target, result)[i].(lastSample := None) == l[i].(lastSample := None)
    ensures forall i :: 0 <= i < |l| && l[i].id != target.id ==> AfterSamples(l, target, result)[i] == l[i]
    ensures (result.SamplesThrown? || |result.data| == 0) ==> AfterSamples(l, target, result) == l
    ensures result.SamplesReturned? && |result.data| > 0 ==>
      forall i :: 0 <= i < |l| && l[i].id == target.id ==>
        AfterSamples(l, target, result)[i].lastSample == Some(ConvertSample(result.data[0], target))
  {
  }

  /** The actuator counterpart: only a defined state writes, and only to entries with the target's id. */
  lemma StateDetailIsLocal(l: seq<Actuator>, target: Actuator, result: StateResult)
    ensures |AfterState(l, target, result)| == |l|
    ensures forall i :: 0 <= i < |l| ==> AfterState(l, target, result)[i].(state := Undefined) == l[i].(state := Undefined)
    ensures forall i :: 0 <= i < |l| && l[i].id != target.id ==> AfterState(l, target, result)[i] == l[i]
    ensures (result.StateThrown? || result.state == Undefined) ==> AfterState(l, target, result) == l
    ensures result.StateReturned? && result.state != Undefined ==>
      forall i :: 0 <= i < |l| && l[i].id == target.id ==> AfterState(l, target, result)[i].state == result.state
  {
  }

  /** The fan-out's effect on the sensors: every result applied in list order. */
  function AfterAllSamples(l: seq<Sensor>, targets: seq<Sensor>, results: seq<SamplesResult>): seq<Sensor>
    requires |results| == |targets|
    decreases |targets|
  {
    if |targets| == 0 then l
    else
      var n := |targets| - 1;
      AfterSamples(AfterAllSamples(l, targets[..n], results[..n]), targets[n], results[n])
  }

  /** The fan-out's effect on the actuators: every result applied in list order. */
  function AfterAllStates(l: seq<Actuator>, targets: seq<Actuator>, results: seq<StateResult>): seq<Actuator>
    requires |results| == |targets|
    decreases |targets|
  {
    if |targets| == 0 then l
    else
      var n := |targets| - 1;
      AfterState(AfterAllStates(l, targets[..n], results[..n]), targets[n], results[n])
  }

  /** The fan-out over one more result: apply it to the state after the earlier ones. */
  lemma AfterAllSamplesExtend(l: seq<Sensor>, targets: seq<Sensor>, results: seq<SamplesResult>, k: nat)
    requires |results| == |targets| && k < |targets|
    ensures AfterAllSamples(l, targets[..k + 1], results[..k + 1])
         == AfterSamples(AfterAllSamples(l, targets[..k], results[..k]), targets[k], results[k])
  {
    assert targets[..k + 1][..k] == targets[..k] && results[..k + 1][..k] == results[..k];
  }

  lemma AfterAllStatesExtend(l: seq<Actuator>, targets: seq<Actuator>, results: seq<StateResult>, k: nat)
    requires |results| == |targets| && k < |targets|
    ensures AfterAllStates(l, targets[..k + 1], results[..k + 1])
         == AfterState(AfterAllStates(l, targets[..k], results[..k]), targets[k], results[k])
  {
    assert targets[..k + 1][..k] == targets[..k] && results[..k + 1][..k] == results[..k];
  }

  /**
    The whole sensor fan-out never removes, adds or reorders sensors, touches only their samples,
    leaves every sensor whose id is not fetched exactly as it was, and when no request returns data
    (all thrown or empty) leaves the snapshot unchanged.
  */
  lemma {:induction false} SampleFanOutIsLocal(l: seq<Sensor>, targets: seq<Sensor>, results: seq<SamplesResult>)
    requires |results| == |targets|
    ensures |AfterAllSamples(l, targets, results)| == |l|
    ensures forall i :: 0 <= i < |l| ==> AfterAllSamples(l, targets, results)[i].(lastSample := None) == l[i].(lastSample := None)
    ensures forall i :: 0 <= i < |l| && (forall k :: 0 <= k < |targets| ==> targets[k].id != l[i].id) ==>
      AfterAllSamples(l, targets, results)[i] == l[i]
    ensures (forall k :: 0 <= k < |results| ==> results[k].SamplesThrown? || |results[k].data| == 0) ==>
      AfterAllSamples(l, targets, results) == l
    decreases |targets|
  {
    if |targets| > 0 {
      var n := |targets| - 1;
      SampleFanOutIsLocal(l, targets[..n], results[..n]);
      SampleDetailIsLocal(AfterAllSamples(l, targets[..n], results[..n]), targets[n], results[n]);
    }
  }

  /** The actuator fan-out is local in the same way. */
  lemma {:induction false} StateFanOutIsLocal(l: seq<Actuator>, targets: seq<Actuator>, results: seq<StateResult>)
    requires |results| == |targets|
    ensures |AfterAllStates(l, targets, results)| == |l|
    ensures forall i :: 0 <= i < |l| ==> AfterAllStates(l, targets, results)[i].(state := Undefined) == l[i].(state := Undefined)
    ensures forall i :: 0 <= i < |l| && (forall k :: 0 <= k < |targets| ==> targets[k].id != l[i].id) ==>
      AfterAllStates(l, targets, results)[i] == l[i]
    ensures (forall k :: 0 <= k < |results| ==> results[k].StateThrown? || results[k].state == Undefined) ==>
      AfterAllStates(l, targets, results) == l
    decreases |targets|
  {
    if |targets| > 0 {
      var n := |targets| - 1;
      StateFanOutIsLocal(l, targets[..n], results[..n]);
      StateDetailIsLocal(AfterAllStates(l, targets[..n], results[..n]), targets[n], results[n]);
    }
  }

  /**
    Freshness across a poll: a sensor listed again keeps its previous sample through the merge; a
    detail result with data then replaces it, and a failed detail fetch leaves the previous one.
  */
  lemma MergeThenDetail(prev: seq<Sensor>, resp: seq<Sensor>, i: nat, result: SamplesResult)
    requires i < |resp|
    ensures var merged := EnrichSensors(prev, resp);
      var after := AfterSamples(merged, merged[i], result);
      && merged[i].lastSample == PreviousSample(prev, resp[i].id)
      && (result.SamplesReturned? && |result.data| > 0 ==> after[i].lastSample == Some(ConvertSample(result.data[0], merged[i])))
      && (result.SamplesThrown? ==> after[i].lastSample == PreviousSample(prev, resp[i].id))
  {
  }

  // ----- The optimistic actuator command -----

  /** The data mode in which commands reach the API; the demo mode is not part of this model. */
  datatype Mode = Live | Historical

  /** The outcome of the `setActuatorState` call: it threw (with an Error's message, if it was one), or it answered. */
  datatype WriteResult = WriteThrown(error: Option<string>) | Written(response: Option<Actuator>)

  /** The value a command writes: the negation for BOOLEAN, else the numeric state or 0. */
  function ToggleValue(a: Actuator): (v: CommandValue)
    ensures a.dataType == BOOLEAN ==> v.Bool? && (v.b <==> !Truthy(a.state))
    ensures a.dataType != BOOLEAN ==> v.Num? && v.n == (if a.state.Num? then a.state.n else 0.0)
  {
    if a.dataType == BOOLEAN then Bool(!Truthy(a.state))
    else if a.state.Num? then a.state
    else Num(0.0)
  }

  /** Commanding twice restores a boolean actuator's state; on a numeric one the second command changes nothing. */
  lemma ToggleTwice(a: Actuator)
    ensures a.dataType == BOOLEAN && a.state.Bool? ==> ToggleValue(a.(state := ToggleValue(a))) == a.state
    ensures a.dataType != BOOLEAN ==> ToggleValue(a.(state := ToggleValue(a))) == ToggleValue(a)
  {
  }

  /** A write response is used only when it has a non-empty id and a defined state. */
  predicate IsConfirmed(response: Option<Actuator>) {
    response.Some? && response.value.id != "" && response.value.state != Undefined
  }

  /** The message of a thrown value: an Error's message, or the fallback text. */
  function ErrorText(error: Option<string>, fallback: string): string {
    error.GetOr(fallback)
  }

  /** The write errors after which the optimistic value is kept even in live mode. */
  predicate IsBenignWriteError(msg: string) {
    || Contains(msg, "404")
    || Contains(msg, "endpoint")
    || Contains(msg, "timeout")
    || Contains(msg, "Request timeout")
    || Contains(msg, "Unable to control")
    || Contains(msg, "not")
    || Contains(ToLower(msg), "fetch")
  }

  predicate KeepsOptimistic(mode: Mode, msg: string) {
    mode == Historical || IsBenignWriteError(msg)
  }

  /** The "Request timeout" test adds nothing: every message containing it contains "timeout". */
  lemma RequestTimeoutSubsumed(msg: string)
    requires Contains(msg, "Request timeout")
    ensures Contains(msg, "timeout")
  {
    assert "Request timeout" == "Request " + "timeout";
    ContainsSuffix(msg, "Request ", "timeout");
  }

  /** The actuators after a command: optimistic value, then confirmed response, kept value or revert. */
  function ToggleOutcome(l: seq<Actuator>, target: Actuator, mode: Mode, result: WriteResult): seq<Actuator> {
    var optimistic := WithState(l, target.id, ToggleValue(target));
    match result
    case Written(response) =>
      if IsConfirmed(response) then WithActuator(optimistic, target.id, response.value) else optimistic
    case WriteThrown(error) =>
      if KeepsOptimistic(mode, ErrorText(error, UnknownErrorText)) then optimistic
      else WithState(optimistic, target.id, target.state)
  }

  /** What a command reports in the activity log. */
  function ToggleNotice(target: Actuator, mode: Mode, result: WriteResult): Notice {
    match result
    case Written(_) => Notice(Updated(target.name, ToggleValue(target)), Info)
    case WriteThrown(error) =>
      var msg := ErrorText(error, UnknownErrorText);
      if KeepsOptimistic(mode, msg) then Notice(UpdatedLocally(target.name, mode == Historical), Info)
      else Notice(UpdateFailed(target.name, msg), Warning)
  }

  /**
    A command changes only the entries whose id is the target's; length, order and every other entry
    are untouched. Those entries end up as the confirmed response when the write answered with an id
    and a defined state; otherwise with the optimistic value, unless the write threw an error that is
    not benign in live mode, in which case their state is the target's state before the command.
  */
  lemma ToggleOutcomeCases(l: seq<Actuator>, target: Actuator, mode: Mode, result: WriteResult)
    ensures var r := ToggleOutcome(l, target, mode, result);
      && |r| == |l|
      && (forall i :: 0 <= i < |l| && l[i].id != target.id ==> r[i] == l[i])
      && (result.Written? && IsConfirmed(result.response) ==>
            forall i :: 0 <= i < |l| && l[i].id == target.id ==> r[i] == result.response.value)
      && (result.Written? && !IsConfirmed(result.response) ==>
            forall i :: 0 <= i < |l| && l[i].id == target.id ==> r[i] == l[i].(state := ToggleValue(target)))
      && (result.WriteThrown? ==>
            forall i :: 0 <= i < |l| && l[i].id == target.id ==>
              r[i] == l[i].(state := if KeepsOptimistic(mode, ErrorText(result.error, UnknownErrorText))
                                     then ToggleValue(target) else target.state))
    ensures var failed := result.WriteThrown? && !KeepsOptimistic(mode, ErrorText(result.error, UnknownErrorText));
      && (ToggleNotice(target, mode, result).severity == Warning <==> failed)
      && (failed ==> ToggleNotice(target, mode, result).message == UpdateFailed(target.name, ErrorText(result.error, UnknownErrorText)))
  {
  }

  /**
    A reverted command restores the snapshot exactly when the target was the snapshot's own entry
    (every entry with its id had its state): the failed command leaves no trace in the actuators.
  */
  lemma RevertRestores(l: seq<Actuator>, target: Actuator, error: Option<string>)
    requires forall i :: 0 <= i < |l| && l[i].id == target.id ==> l[i].state == target.state
    requires !IsBenignWriteError(ErrorText(error, UnknownErrorText))
    ensures ToggleOutcome(l, target, Live, WriteThrown(error)) == l
  {
    WriteBackRestores(l, target.id, ToggleValue(target), target.state);
  }

  /** Writing a state and then writing back the one every matching entry had restores the list. */
  lemma WriteBackRestores(l: seq<Actuator>, id: string, v: ActuatorState, original: ActuatorState)
    requires forall i :: 0 <= i < |l| && l[i].id == id ==> l[i].state == original
    ensures WithState(WithState(l, id, v), id, original) == l
  {
    var r := WithState(WithState(l, id, v), id, original);
    assert forall i :: 0 <= i < |l| ==> r[i] == l[i];
  }

  /** In historical mode a failed write always keeps the optimistic value and reports it as local. */
  lemma HistoricalKeepsOptimistic(l: seq<Actuator>, target: Actuator, error: Option<string>)
    ensures ToggleOutcome(l, target, Historical, WriteThrown(error)) == WithState(l, target.id, ToggleValue(target))
    ensures ToggleNotice(target, Historical, WriteThrown(error)) == Notice(UpdatedLocally(target.name, true), Info)
  {
  }

  // ----- The activity log -----

  /** An event's message and severity; the log adds the kind and the time. */
  datatype Notice = Notice(message: Message, severity: Severity)

  const MaxEvents := 50

  /** `[e, ...log].slice(0, 50)`: the newest event first, at most 50 kept. */
  function Logged(log: seq<ActivityEvent>, e: ActivityEvent): (r: seq<ActivityEvent>)
    ensures |r| == Min(MaxEvents, |log| + 1) && r[0] == e
    ensures forall k :: 1 <= k < |r| ==> r[k] == log[k - 1]
  {
    ([e] + log)[..Min(MaxEvents, |log| + 1)]
  }

  /** The log after an optional notice of the given kind. */
  function LoggedNotice(log: seq<ActivityEvent>, kind: EventType, notice: Option<Notice>, now: int): seq<ActivityEvent> {
    match notice
    case Some(n) => Logged(log, ActivityEvent(kind, n.message, n.severity, now))
    case None => log
  }

  /** The log after adding the events of `es`, oldest first. */
  function LoggedAll(log: seq<ActivityEvent>, es: seq<ActivityEvent>): seq<ActivityEvent>
    decreases |es|
  {
    if |es| == 0 then log else Logged(LoggedAll(log, es[..|es| - 1]), es[|es| - 1])
  }

  /** After any run of events the log is the newest 50 of all events, newest first. */
  lemma {:induction false} LoggedAllNewestFirst(log: seq<ActivityEvent>, es: seq<ActivityEvent>)
    requires |log| <= MaxEvents
    ensures LoggedAll(log, es) == (Reverse(es) + log)[..Min(MaxEvents, |es| + |log|)]
    decreases |es|
  {
    if |es| == 0 {
      assert Reverse(es) + log == log;
    } else {
      var n := |es| - 1;
      LoggedAllNewestFirst(log, es[..n]);
      assert es == es[..n] + [es[n]];
      ReverseAppend(es[..n], [es[n]]);
      assert Reverse([es[n]]) == [es[n]];
      var before := (Reverse(es[..n]) + log)[..Min(MaxEvents, n + |log|)];
      assert ([es[n]] + before) == ([es[n]] + Reverse(es[..n]) + log)[..Min(MaxEvents, n + |log|) + 1];
    }
  }

  // ----- The energy-saved figure -----

  /** The number of actuators whose state is exactly `false`. */
  function OffCount(l: seq<Actuator>): (n: nat)
    ensures n <= |l|
  {
    if |l| == 0 then 0 else (if l[0].state == Bool(false) then 1 else 0) + OffCount(l[1..])
  }

  /** The energy-saved figure the page shows: 100 W per actuator whose state is `false`. */
  function EnergySaved(l: seq<Actuator>): nat {
    100 * OffCount(l)
  }

  /** The figure is between 0 and 100 per actuator; 0 exactly when none is off, the maximum exactly when all are. */
  lemma {:induction false} EnergySavedBounds(l: seq<Actuator>)
    ensures EnergySaved(l) <= 100 * |l|
    ensures EnergySaved(l) == 0 <==> forall i :: 0 <= i < |l| ==> l[i].state != Bool(false)
    ensures EnergySaved(l) == 100 * |l| <==> forall i :: 0 <= i < |l| ==> l[i].state == Bool(false)
  {
    if |l| > 0 {
      EnergySavedBounds(l[1..]);
      assert forall i :: 1 <= i < |l| ==> l[i] == l[1..][i - 1];
    }
  }

  // ----- Classifying a failed poll -----

  /** The message of a thrown poll: an Error's message, or "Connection failed". */
  function PollErrorText(error: Option<string>): string {
    ErrorText(error, ConnectionFailedText)
  }

  predicate IsGatewayError(msg: string) {
    Contains(msg, "502") || Contains(msg, "Bad Gateway")
  }

  predicate IsRateLimitError(msg: string) {
    Contains(msg, "429") || Contains(msg, "rate-limit")
  }

  /** The duplicate-notification guard of the 502 branch: the current error mentions "gateway". */
  predicate GatewayNoticeShown(apiError: Option<string>) {
    apiError.Some? && Contains(apiError.value, "gateway")
  }

  /** The duplicate-notification guard of the 429 branch: the current error mentions "rate-limit". */
  predicate RateLimitNoticeShown(apiError: Option<string>) {
    apiError.Some? && Contains(apiError.value, "rate-limit")
  }

  // The stored messages are built from short pieces so that the prover can reason about their characters.

  const GatewayErrorText := "External API temporarily " + "unavailable. Data will " + "load when service recovers."

  const RateLimitErrorText := "Rate limit reached. " + "Slowing down requests..."

  const ConnectionFailedText := "Connection " + "failed"

  /** The message of a thrown command that is not an `Error`. */
  const UnknownErrorText := "Unknown " + "error"

  /** The message the 502 branch stores does not contain "gateway", so its guard never sees its own notice. */
  lemma GatewayGuardMissesOwnNotice()
    ensures !GatewayNoticeShown(Some(GatewayErrorText))
  {
    AbsentCharNotContained(GatewayErrorText, "gateway", 'g');
  }

  /** Neither stored notice contains "rate-limit" (no hyphen in either), so the 429 guard never sees them. */
  lemma RateLimitGuardMissesNotices()
    ensures !RateLimitNoticeShown(Some(RateLimitErrorText))
    ensures !RateLimitNoticeShown(Some(GatewayErrorText))
  {
    RateLimitGuardMissesOwnNotice();
    RateLimitGuardMissesGatewayNotice();
  }

  lemma RateLimitGuardMissesOwnNotice()
    ensures !RateLimitNoticeShown(Some(RateLimitErrorText))
  {
    assert '-' !in RateLimitErrorText;
    AbsentCharNotContained(RateLimitErrorText, "rate-limit", '-');
  }

  lemma RateLimitGuardMissesGatewayNotice()
    ensures !RateLimitNoticeShown(Some(GatewayErrorText))
  {
    assert '-' !in GatewayErrorText;
    AbsentCharNotContained(GatewayErrorText, "rate-limit", '-');
  }

  /** What the page knows about the API link: `apiConnected` and `apiError`. */
  datatype Link = Link(connected: bool, error: Option<string>)

  /** The link after a poll and the system event it emits, if any. */
  datatype PollOutcome = PollOutcome(link: Link, notice: Option<Notice>)

  /** A poll whose list requests both answered. */
  function AfterPollSucceeded(link: Link): PollOutcome {
    if link.connected then PollOutcome(link, None)
    else PollOutcome(Link(true, None), Some(Notice(Connected, Success)))
  }

  /** A poll that threw: the 502 branch, the 429 branch, or a lost connection. */
  function AfterPollFailed(link: Link, error: Option<string>): PollOutcome {
    var msg := PollErrorText(error);
    if IsGatewayError(msg) then
      if GatewayNoticeShown(link.error) then PollOutcome(link, None)
      else PollOutcome(link.(error := Some(GatewayErrorText)), Some(Notice(GatewayIssue, Warning)))
    else if IsRateLimitError(msg) then
      if RateLimitNoticeShown(link.error) then PollOutcome(link, None)
      else PollOutcome(link.(error := Some(RateLimitErrorText)), Some(Notice(RateLimited, Warning)))
    else if link.connected then PollOutcome(Link(false, Some(msg)), Some(Notice(ConnectionLost, Warning)))
    else PollOutcome(link, None)
  }

  /**
    A successful poll always leaves the page connected. It emits an event exactly when it changes
    the connection, and then the event is "Connected" and the error is cleared; a poll while
    connected changes nothing.
  */
  lemma PollSucceededConnects(link: Link)
    ensures var r := AfterPollSucceeded(link);
      && r.link.connected
      && (r.notice.Some? <==> !link.connected)
      && (link.connected ==> r.link == link)
      && (!link.connected ==> r.link.error == None && r.notice == Some(Notice(Connected, Success)))
  {
  }

  /**
    A failed poll never connects. The 502 and 429 branches keep the connection flag; any other
    error disconnects, storing its message, and emits "Lost connection" exactly when the page was
    connected. At most one event is emitted, and if none is, the link is unchanged.
  */
  lemma PollFailedNeverConnects(link: Link, error: Option<string>)
    ensures var r := AfterPollFailed(link, error); var msg := PollErrorText(error);
      && (r.link.connected ==> link.connected)
      && ((IsGatewayError(msg) || IsRateLimitError(msg)) ==> r.link.connected == link.connected)
      && (!IsGatewayError(msg) && !IsRateLimitError(msg) ==>
            !r.link.connected && (r.notice.Some? <==> link.connected)
            && (link.connected ==> r.link.error == Some(msg) && r.notice == Some(Notice(ConnectionLost, Warning))))
      && (r.notice.None? ==> r.link == link)
  {
  }

  /** The stored error never mentions "rate-limit": no poll outcome can store such a message. */
  lemma RateLimitNoticeNeverStored(link: Link, error: Option<string>)
    requires !RateLimitNoticeShown(link.error)
    ensures !RateLimitNoticeShown(AfterPollFailed(link, error).link.error)
    ensures !RateLimitNoticeShown(AfterPollSucceeded(link).link.error)
  {
    RateLimitGuardMissesNotices();
  }

  /**
    So a 429 poll (that is not also a 502) always emits the throttling event and stores the
    throttling message, however many times in a row it happens: the 429 guard never fires.
  */
  lemma RateLimitAlwaysNotifies(link: Link, error: Option<string>)
    requires !RateLimitNoticeShown(link.error)
    requires IsRateLimitError(PollErrorText(error)) && !IsGatewayError(PollErrorText(error))
    ensures AfterPollFailed(link, error) == PollOutcome(link.(error := Some(RateLimitErrorText)), Some(Notice(RateLimited, Warning)))
  {
  }

  /**
    A 502 poll from a link whose error does not mention "gateway" emits its event, and so does the
    next 502 poll: the message the branch stores does not mention "gateway" either.
  */
  lemma RepeatedGatewayRenotifies(link: Link, e1: Option<string>, e2: Option<string>)
    requires !GatewayNoticeShown(link.error)
    requires IsGatewayError(PollErrorText(e1)) && IsGatewayError(PollErrorText(e2))
    ensures AfterPollFailed(link, e1).notice == Some(Notice(GatewayIssue, Warning))
    ensures AfterPollFailed(AfterPollFailed(link, e1).link, e2).notice == Some(Notice(GatewayIssue, Warning))
  {
    GatewayGuardMissesOwnNotice();
  }

  /**
    The 502 guard fires only after a lost connection stored a message with a lowercase "gateway"
    (such as "gateway down"): that poll disconnects, and every 502 that follows emits nothing.
  */
  lemma GatewayGuardSuppressesAfterLostConnection(link: Link, lost: Option<string>, e: Option<string>)
    requires link.connected
    requires !IsGatewayError(PollErrorText(lost)) && !IsRateLimitError(PollErrorText(lost))
    requires Contains(PollErrorText(lost), "gateway")
    requires IsGatewayError(PollErrorText(e))
    ensures AfterPollFailed(link, lost).notice == Some(Notice(ConnectionLost, Warning))
    ensures AfterPollFailed(AfterPollFailed(link, lost).link, e) == PollOutcome(AfterPollFailed(link, lost).link, None)
  {
  }
}
