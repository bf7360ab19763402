/**
  The dashboard page (Frontend/src/pages/Index.tsx) as a state machine: its snapshot of sensors,
  actuators, connection flag, error message and activity log, changed in place by one poll of the
  API (`loadData`), by the throttled detail fan-outs that poll starts, and by an actuator command
  (`handleActuatorToggle`). Every network answer is an input; every change is the pure updater
  of module Reconcile applied to the current state.
*/
module Dashboard {
  import opened Wrappers
  import opened Seqs
  import opened Entities
  import opened Reconcile
  import opened Batching

  /** The outcome of `Promise.all([listSensors(), listActuators()])`: both lists, or a thrown error. */
  datatype PollResult = Listed(sensors: seq<Sensor>, actuators: seq<Actuator>) | PollThrown(error: Option<string>)

  class Page {
    var sensors: seq<Sensor>
    var actuators: seq<Actuator>
    var apiConnected: bool
    var apiError: Option<string>
    var activityEvents: seq<ActivityEvent>
    var dataMode: Mode

    /** The log never holds more than 50 events, and the stored error never mentions "rate-limit". */
    ghost predicate Valid()
      reads this
    {
      |activityEvents| <= MaxEvents && !RateLimitNoticeShown(apiError)
    }

    function CurrentLink(): Link
      reads this
    {
      Link(apiConnected, apiError)
    }

    /** The page's initial state: nothing loaded, not connected, historical mode. */
    constructor ()
      ensures Valid()
      ensures sensors == [] && actuators == [] && activityEvents == []
      ensures !apiConnected && apiError == None && dataMode == Historical
    {
      sensors := [];
      actuators := [];
      apiConnected := false;
      apiError := None;
      activityEvents := [];
      dataMode := Historical;
    }

    /** The mode buttons. */
    method SetDataMode(mode: Mode)
      requires Valid()
      modifies this
      ensures Valid()
      ensures dataMode == mode
      ensures sensors == old(sensors) && actuators == old(actuators) && activityEvents == old(activityEvents)
      ensures apiConnected == old(apiConnected) && apiError == old(apiError)
    {
      dataMode := mode;
    }

    /** `addActivityEvent`: prepend a timestamped event, keep the newest 50. */
    method AddActivityEvent(kind: EventType, notice: Notice, now: int)
      requires Valid()
      modifies this
      ensures Valid()
      ensures activityEvents == Logged(old(activityEvents), ActivityEvent(kind, notice.message, notice.severity, now))
      ensures sensors == old(sensors) && actuators == old(actuators) && dataMode == old(dataMode)
      ensures apiConnected == old(apiConnected) && apiError == old(apiError)
    {
      activityEvents := ([ActivityEvent(kind, notice.message, notice.severity, now)] + activityEvents)[..Min(MaxEvents, |activityEvents| + 1)];
    }

    /**
      The synchronous part of one poll: merge both list responses (or leave both lists when the
      poll threw) and update the connection, logging at most one system event. It returns the
      entities whose details the two fan-outs then fetch: the merged sensors, and the actuators
      exactly as listed; a list that came back empty starts no fan-out.
    */
    method Poll(result: PollResult, now: int) returns (sensorTargets: seq<Sensor>, actuatorTargets: seq<Actuator>)
      requires Valid()
      modifies this
      ensures Valid()
      ensures dataMode == old(dataMode)
      ensures result.Listed? ==>
        && sensors == SensorsAfterList(old(sensors), result.sensors)
        && actuators == ActuatorsAfterList(old(actuators), result.actuators)
        && sensorTargets == (if |result.sensors| > 0 then sensors else [])
        && actuatorTargets == result.actuators
        && CurrentLink() == AfterPollSucceeded(old(CurrentLink())).link
        && activityEvents == LoggedNotice(old(activityEvents), SystemEvent, AfterPollSucceeded(old(CurrentLink())).notice, now)
      ensures result.PollThrown? ==>
        && sensors == old(sensors) && actuators == old(actuators)
        && sensorTargets == [] && actuatorTargets == []
        && CurrentLink() == AfterPollFailed(old(CurrentLink()), result.error).link
        && activityEvents == LoggedNotice(old(activityEvents), SystemEvent, AfterPollFailed(old(CurrentLink()), result.error).notice, now)
    {
      sensorTargets, actuatorTargets := [], [];
      match result {
        case Listed(listedSensors, listedActuators) =>
          if |listedSensors| > 0 {
            sensors := EnrichSensors(sensors, listedSensors);
            sensorTargets := sensors;
          }
          if |listedActuators| > 0 {
            actuators := MergeActuators(actuators, listedActuators);
          }
          actuatorTargets := listedActuators;
          if !apiConnected {
            apiConnected := true;
            apiError := None;
            AddActivityEvent(SystemEvent, Notice(Connected, Success), now);
          }
        case PollThrown(error) =>
          var msg := PollErrorText(error);
          if IsGatewayError(msg) {
            if !GatewayNoticeShown(apiError) {
              GatewayGuardMissesOwnNotice();
              RateLimitGuardMissesNotices();
              apiError := Some(GatewayErrorText);
              AddActivityEvent(SystemEvent, Notice(GatewayIssue, Warning), now);
            }
          } else if IsRateLimitError(msg) {
            if !RateLimitNoticeShown(apiError) {
              RateLimitGuardMissesNotices();
              apiError := Some(RateLimitErrorText);
              AddActivityEvent(SystemEvent, Notice(RateLimited, Warning), now);
            }
          } else if apiConnected {
            apiConnected := false;
            apiError := Some(msg);
            AddActivityEvent(SystemEvent, Notice(ConnectionLost, Warning), now);
          }
      }
    }

    /** One batch of the sensor fan-out: the results for `targets[from..to]`, applied in list order. */
    method ApplySampleBatch(ghost initial: seq<Sensor>, targets: seq<Sensor>, results: seq<SamplesResult>, from: nat, to: nat)
      requires |results| == |targets| && from <= to <= |targets|
      requires sensors == AfterAllSamples(initial, targets[..from], results[..from])
      modifies this
      ensures sensors == AfterAllSamples(initial, targets[..to], results[..to])
      ensures actuators == old(actuators) && activityEvents == old(activityEvents) && dataMode == old(dataMode)
      ensures apiConnected == old(apiConnected) && apiError == old(apiError)
    {
      var k := from;
      while k < to
        invariant from <= k <= to
        invariant sensors == AfterAllSamples(initial, targets[..k], results[..k])
        invariant actuators == old(actuators) && activityEvents == old(activityEvents) && dataMode == old(dataMode)
        invariant apiConnected == old(apiConnected) && apiError == old(apiError)
      {
        AfterAllSamplesExtend(initial, targets, results, k);
        sensors := AfterSamples(sensors, targets[k], results[k]);
        k := k + 1;
      }
    }

    /**
      The sensor fan-out: batches of 10 with a 500 ms pause between batches; each sample result is
      applied to the current sensors as it arrives. Returns the steps taken.
    */
    method FetchSensorDetails(targets: seq<Sensor>, results: seq<SamplesResult>) returns (trace: seq<Step<Sensor>>)
      requires |results| == |targets|
      modifies this
      ensures sensors == AfterAllSamples(old(sensors), targets, results)
      ensures trace == Schedule(targets, SensorBatchSize, SensorPauseMs)
      ensures actuators == old(actuators) && activityEvents == old(activityEvents) && dataMode == old(dataMode)
      ensures apiConnected == old(apiConnected) && apiError == old(apiError)
    {
      var n := |targets|;
      var batchStart := 0;
      trace := [];
      while batchStart < n
        invariant 0 <= batchStart
        invariant trace + Schedule(targets[Min(batchStart, n)..], SensorBatchSize, SensorPauseMs)
                  == Schedule(targets, SensorBatchSize, SensorPauseMs)
        invariant sensors == AfterAllSamples(old(sensors), targets[..Min(batchStart, n)], results[..Min(batchStart, n)])
        invariant actuators == old(actuators) && activityEvents == old(activityEvents) && dataMode == old(dataMode)
        invariant apiConnected == old(apiConnected) && apiError == old(apiError)
        decreases n - batchStart
      {
        var batchEnd := Min(batchStart + SensorBatchSize, n);
        ApplySampleBatch(old(sensors), targets, results, batchStart, batchEnd);
        ScheduleAdvance(targets, SensorBatchSize, SensorPauseMs, batchStart, trace);
        var steps := [Fetch(targets[batchStart..batchEnd])] + PauseAfter(n, SensorBatchSize, SensorPauseMs, batchStart);
        trace := trace + steps;
        batchStart := batchStart + SensorBatchSize;
      }
      assert targets[..n] == targets && results[..n] == results;
    }

    /** One batch of the actuator fan-out: the results for `targets[from..to]`, applied in list order. */
    method ApplyStateBatch(ghost initial: seq<Actuator>, targets: seq<Actuator>, results: seq<StateResult>, from: nat, to: nat)
      requires |results| == |targets| && from <= to <= |targets|
      requires actuators == AfterAllStates(initial, targets[..from], results[..from])
      modifies this
      ensures actuators == AfterAllStates(initial, targets[..to], results[..to])
      ensures sensors == old(sensors) && activityEvents == old(activityEvents) && dataMode == old(dataMode)
      ensures apiConnected == old(apiConnected) && apiError == old(apiError)
    {
      var k := from;
      while k < to
        invariant from <= k <= to
        invariant actuators == AfterAllStates(initial, targets[..k], results[..k])
        invariant sensors == old(sensors) && activityEvents == old(activityEvents) && dataMode == old(dataMode)
        invariant apiConnected == old(apiConnected) && apiError == old(apiError)
      {
        AfterAllStatesExtend(initial, targets, results, k);
        actuators := AfterState(actuators, targets[k], results[k]);
        k := k + 1;
      }
    }

    /**
      The actuator fan-out: batches of 3 with a 2000 ms pause between batches; each state result is
      applied to the current actuators as it arrives. Returns the steps taken.
    */
    method FetchActuatorStates(targets: seq<Actuator>, results: seq<StateResult>) returns (trace: seq<Step<Actuator>>)
      requires |results| == |targets|
      modifies this
      ensures actuators == AfterAllStates(old(actuators), targets, results)
      ensures trace == Schedule(targets, ActuatorBatchSize, ActuatorPauseMs)
      ensures sensors == old(sensors) && activityEvents == old(activityEvents) && dataMode == old(dataMode)
      ensures apiConnected == old(apiConnected) && apiError == old(apiError)
    {
      var n := |targets|;
      var batchStart := 0;
      trace := [];
      while batchStart < n
        invariant 0 <= batchStart
        invariant trace + Schedule(targets[Min(batchStart, n)..], ActuatorBatchSize, ActuatorPauseMs)
                  == Schedule(targets, ActuatorBatchSize, ActuatorPauseMs)
        invariant actuators == AfterAllStates(old(actuators), targets[..Min(batchStart, n)], results[..Min(batchStart, n)])
        invariant sensors == old(sensors) && activityEvents == old(activityEvents) && dataMode == old(dataMode)
        invariant apiConnected == old(apiConnected) && apiError == old(apiError)
        decreases n - batchStart
      {
        var batchEnd := Min(batchStart + ActuatorBatchSize, n);
        ApplyStateBatch(old(actuators), targets, results, batchStart, batchEnd);
        ScheduleAdvance(targets, ActuatorBatchSize, ActuatorPauseMs, batchStart, trace);
        var steps := [Fetch(targets[batchStart..batchEnd])] + PauseAfter(n, ActuatorBatchSize, ActuatorPauseMs, batchStart);
        trace := trace + steps;
        batchStart := batchStart + ActuatorBatchSize;
      }
      assert targets[..n] == targets && results[..n] == results;
    }

    /**
      One whole poll in live or historical mode: the list requests, then the sensor fan-out over the
      merged sensors and the actuator fan-out over the listed actuators, with one detail result per
      entity fetched.
    */
    method LoadData(result: PollResult, sampleResults: seq<SamplesResult>, stateResults: seq<StateResult>, now: int)
      returns (sensorTrace: seq<Step<Sensor>>, actuatorTrace: seq<Step<Actuator>>)
      requires Valid()
      requires |sampleResults| == (if result.Listed? && |result.sensors| > 0 then |result.sensors| else 0)
      requires |stateResults| == (if result.Listed? then |result.actuators| else 0)
      modifies this
      ensures Valid()
      ensures dataMode == old(dataMode)
      ensures result.Listed? ==>
        var merged := SensorsAfterList(old(sensors), result.sensors);
        var targets := if |result.sensors| > 0 then merged else [];
        && sensors == AfterAllSamples(merged, targets, sampleResults)
        && actuators == AfterAllStates(ActuatorsAfterList(old(actuators), result.actuators), result.actuators, stateResults)
        && sensorTrace == Schedule(targets, SensorBatchSize, SensorPauseMs)
        && actuatorTrace == Schedule(result.actuators, ActuatorBatchSize, ActuatorPauseMs)
        && CurrentLink() == AfterPollSucceeded(old(CurrentLink())).link
        && activityEvents == LoggedNotice(old(activityEvents), SystemEvent, AfterPollSucceeded(old(CurrentLink())).notice, now)
      ensures result.PollThrown? ==>
        && sensors == old(sensors) && actuators == old(actuators)
        && sensorTrace == [] && actuatorTrace == []
        && CurrentLink() == AfterPollFailed(old(CurrentLink()), result.error).link
        && activityEvents == LoggedNotice(old(activityEvents), SystemEvent, AfterPollFailed(old(CurrentLink()), result.error).notice, now)
    {
      var sensorTargets, actuatorTargets := Poll(result, now);
      sensorTrace := FetchSensorDetails(sensorTargets, sampleResults);
      actuatorTrace := FetchActuatorStates(actuatorTargets, stateResults);
    }

    /**
      A command from the actuator card (live or historical mode): apply the new value at once, then
      confirm it with the API's answer, keep it, or put back the target's state, and log
      one actuator event saying which.
    */
    method ToggleActuator(target: Actuator, result: WriteResult, now: int)
      requires Valid()
      modifies this
      ensures Valid()
      ensures actuators == ToggleOutcome(old(actuators), target, dataMode, result)
      ensures activityEvents == Logged(old(activityEvents), ActivityEvent(ActuatorEvent,
                ToggleNotice(target, dataMode, result).message, ToggleNotice(target, dataMode, result).severity, now))
      ensures sensors == old(sensors) && dataMode == old(dataMode)
      ensures apiConnected == old(apiConnected) && apiError == old(apiError)
    {
      var previousState := target.state;
      var newValue := ToggleValue(target);
      actuators := WithState(actuators, target.id, newValue);
      match result {
        case Written(response) =>
          if IsConfirmed(response) {
            actuators := WithActuator(actuators, target.id, response.value);
          }
          AddActivityEvent(ActuatorEvent, Notice(Updated(target.name, newValue), Info), now);
        case WriteThrown(error) =>
          var msg := ErrorText(error, UnknownErrorText);
          if KeepsOptimistic(dataMode, msg) {
            AddActivityEvent(ActuatorEvent, Notice(UpdatedLocally(target.name, dataMode == Historical), Info), now);
            return;
          }
          actuators := WithState(actuators, target.id, previousState);
          AddActivityEvent(ActuatorEvent, Notice(UpdateFailed(target.name, msg), Warning), now);
      }
    }
  }

  /**
    Two rate-limited polls in a row after connecting: each one logs the throttling event, so the
    log holds both, newest first, above the connection event.
  */
  method RepeatedRateLimits(e: Option<string>, now: int) returns (log: seq<ActivityEvent>)
    requires IsRateLimitError(PollErrorText(e)) && !IsGatewayError(PollErrorText(e))
    ensures |log| == 3
    ensures log[0].message == RateLimited && log[1].message == RateLimited && log[2].message == Connected
  {
    var page := new Page();
    var _, _ := page.Poll(Listed([], []), now);
    assert page.CurrentLink() == Link(true, None);
    assert |page.activityEvents| == 1 && page.activityEvents[0].message == Connected;
    RateLimitAlwaysNotifies(page.CurrentLink(), e);
    var _, _ := page.Poll(PollThrown(e), now + 10);
    assert page.CurrentLink() == Link(true, Some(RateLimitErrorText));
    assert |page.activityEvents| == 2 && page.activityEvents[0].message == RateLimited && page.activityEvents[1].message == Connected;
    RateLimitGuardMissesOwnNotice();
    RateLimitAlwaysNotifies(page.CurrentLink(), e);
    var _, _ := page.Poll(PollThrown(e), now + 20);
    log := page.activityEvents;
  }

  /** Two 502 polls in a row after connecting: both log the gateway event. */
  method RepeatedGatewayErrors(e: Option<string>, now: int) returns (log: seq<ActivityEvent>)
    requires IsGatewayError(PollErrorText(e))
    ensures |log| == 3
    ensures log[0].message == GatewayIssue && log[1].message == GatewayIssue && log[2].message == Connected
  {
    var page := new Page();
    var _, _ := page.Poll(Listed([], []), now);
    RepeatedGatewayRenotifies(page.CurrentLink(), e, e);
    var _, _ := page.Poll(PollThrown(e), now + 10);
    var _, _ := page.Poll(PollThrown(e), now + 20);
    log := page.activityEvents;
  }
}
