/** The behaviour the service's unit tests demand, one lemma per scenario.
    A register the test leaves unstubbed reads as unset (`None`); a getter
    stubbed with a constant answers the same on every call, which the stubbed
    runs below model by handing every call the same pre-state. */
module ServiceScenarios {
  import opened SecurityData
  import Repo = MockRepository
  import opened Writes
  import opened SecurityService

  predicate Armed(arming: Option<ArmingStatus>)
  {
    arming == Some(ArmedHome) || arming == Some(ArmedAway)
  }

  /** Armed with no alarm, an activation writes the sensor once and sets the
      alarm pending once. */
  lemma ArmedActivationPends(st: State, sensor: Sensor)
    requires Armed(st.store.arming) && st.store.alarm == Some(NoAlarm)
    ensures var o := ChangeSensorActivationStatus(st, sensor, true);
      && Occurrences(o.trace, SensorUpdated(sensor.(active := true))) == 1
      && Occurrences(o.trace, AlarmSet(PendingAlarm)) == 1
      && AlarmWrites(o.trace) == [PendingAlarm]
      && o.state.store.alarm == Some(PendingAlarm)
  {
    var o := ChangeSensorActivationStatus(st, sensor, true);
    OccurrencesOfAlarm(o.trace, PendingAlarm);
  }

  /** Pending and not disarmed (an unset arming register included), any
      activation, of an inactive or an already active sensor, raises the
      alarm. */
  lemma PendingActivationAlarms(st: State, sensor: Sensor)
    requires NotDisarmed(st.store.arming) && st.store.alarm == Some(PendingAlarm)
    ensures var o := ChangeSensorActivationStatus(st, sensor, true);
      && Occurrences(o.trace, SensorUpdated(sensor.(active := true))) == 1
      && Occurrences(o.trace, AlarmSet(Alarm)) == 1
      && AlarmWrites(o.trace) == [Alarm]
      && o.state.store.alarm == Some(Alarm)
  {
    var o := ChangeSensorActivationStatus(st, sensor, true);
    OccurrencesOfAlarm(o.trace, Alarm);
  }

  /** While the alarm fires, a sensor change is written back once and the
      alarm is never written. */
  lemma FiringAlarmIgnoresSensors(st: State, sensor: Sensor, active: bool)
    requires st.store.alarm == Some(Alarm)
    ensures var o := ChangeSensorActivationStatus(st, sensor, active);
      && Occurrences(o.trace, SensorUpdated(sensor.(active := active))) == 1
      && Updates(o.trace) == 1
      && AlarmWrites(o.trace) == []
      && o.state.store.alarm == Some(Alarm)
  {
  }

  /** Deactivating a sensor that is already inactive is written back once and
      never touches the alarm, whatever the registers hold. */
  lemma InactiveDeactivationKeepsAlarm(st: State, sensor: Sensor)
    requires !sensor.active
    ensures var o := ChangeSensorActivationStatus(st, sensor, false);
      && Occurrences(o.trace, SensorUpdated(sensor)) == 1
      && Updates(o.trace) == 1
      && AlarmWrites(o.trace) == []
      && o.state.store.alarm == st.store.alarm
  {
    assert sensor.(active := false) == sensor;
  }

  /** Each of `sensors` deactivated against the same pre-state, as a getter
      stubbed to one alarm status would present it. */
  function StubbedDeactivations(st: State, sensors: seq<Sensor>): seq<Write>
    decreases |sensors|
  {
    if sensors == [] then []
    else ChangeSensorActivationStatus(st, sensors[0], false).trace + StubbedDeactivations(st, sensors[1..])
  }

  /** With the alarm reading pending on every call, deactivating active
      sensors gives one update and one clear per sensor. */
  lemma {:induction false} StubbedPendingDeactivationsClear(st: State, sensors: seq<Sensor>)
    requires st.store.alarm == Some(PendingAlarm)
    requires forall i :: 0 <= i < |sensors| ==> sensors[i].active
    ensures Updates(StubbedDeactivations(st, sensors)) == |sensors|
    ensures Occurrences(StubbedDeactivations(st, sensors), AlarmSet(NoAlarm)) == |sensors|
    ensures |AlarmWrites(StubbedDeactivations(st, sensors))| == |sensors|
    decreases |sensors|
  {
    if sensors != [] {
      var head := ChangeSensorActivationStatus(st, sensors[0], false).trace;
      var tail := StubbedDeactivations(st, sensors[1..]);
      StubbedPendingDeactivationsClear(st, sensors[1..]);
      CountsAppend(head, tail);
      OccurrencesOfAlarm(head, NoAlarm);
      assert AlarmWrites(head) == [NoAlarm];
    }
  }

  /** Each of `sensors` deactivated in turn, every call reading the
      repository the previous one left. */
  function DeactivateInTurn(st: State, sensors: seq<Sensor>): Outcome
    decreases |sensors|
  {
    if sensors == [] then Outcome(st, [])
    else
      var first := ChangeSensorActivationStatus(st, sensors[0], false);
      var rest := DeactivateInTurn(first.state, sensors[1..]);
      Outcome(rest.state, first.trace + rest.trace)
  }

  /** Against a repository that keeps what it is told, the first deactivation
      while pending clears the alarm and the later ones find nothing to clear:
      the alarm ends cleared after a single clear. */
  lemma {:induction false} PendingDeactivationsInTurnClearOnce(st: State, sensors: seq<Sensor>)
    requires st.store.alarm == Some(PendingAlarm)
    requires |sensors| > 0
    requires forall i :: 0 <= i < |sensors| ==> sensors[i].active
    ensures DeactivateInTurn(st, sensors).state.store.alarm == Some(NoAlarm)
    ensures Updates(DeactivateInTurn(st, sensors).trace) == |sensors|
    ensures AlarmWrites(DeactivateInTurn(st, sensors).trace) == [NoAlarm]
  {
    var first := ChangeSensorActivationStatus(st, sensors[0], false);
    assert first.state.store.alarm == Some(NoAlarm) && AlarmWrites(first.trace) == [NoAlarm];
    ClearedStaysCleared(first.state, sensors[1..]);
    CountsAppend(first.trace, DeactivateInTurn(first.state, sensors[1..]).trace);
  }

  /** Deactivations never write an alarm once the alarm is cleared. */
  lemma {:induction false} ClearedStaysCleared(st: State, sensors: seq<Sensor>)
    requires st.store.alarm == Some(NoAlarm)
    ensures DeactivateInTurn(st, sensors).state.store.alarm == Some(NoAlarm)
    ensures Updates(DeactivateInTurn(st, sensors).trace) == |sensors|
    ensures AlarmWrites(DeactivateInTurn(st, sensors).trace) == []
    decreases |sensors|
  {
    if sensors != [] {
      var first := ChangeSensorActivationStatus(st, sensors[0], false);
      ClearedStaysCleared(first.state, sensors[1..]);
      CountsAppend(first.trace, DeactivateInTurn(first.state, sensors[1..]).trace);
    }
  }

  /** A cat in home mode raises the alarm exactly once, whatever the sensors. */
  lemma CatInHomeModeAlarms(st: State)
    requires st.store.arming == Some(ArmedHome)
    ensures var o := ProcessImage(st, true);
      && Occurrences(o.trace, AlarmSet(Alarm)) == 1
      && o.state.store.alarm == Some(Alarm)
      && o.state.previousCat
  {
    OccurrencesOfAlarm(ProcessImage(st, true).trace, Alarm);
  }

  /** No cat and no active sensor clears the alarm exactly once. */
  lemma NoCatNoActivityClears(st: State)
    requires NoSensorActive(st.store.sensors)
    ensures var o := ProcessImage(st, false);
      && Occurrences(o.trace, AlarmSet(NoAlarm)) == 1
      && o.state.store.alarm == Some(NoAlarm)
  {
    OccurrencesOfAlarm(ProcessImage(st, false).trace, NoAlarm);
  }

  /** An empty sensor set has no active sensor, so no cat clears the alarm of
      a repository that holds no sensors. */
  lemma NoCatEmptyStoreClears(previousCat: bool)
    ensures var o := ProcessImage(State(Repo.Fresh(), previousCat), false);
      && Occurrences(o.trace, AlarmSet(NoAlarm)) == 1
      && o.state.store.alarm == Some(NoAlarm)
  {
    NoCatNoActivityClears(State(Repo.Fresh(), previousCat));
  }

  /** Disarming persists the mode once and clears the alarm once. */
  lemma DisarmClears(st: State)
    ensures var o := SetArmingStatus(st, Disarmed);
      && Occurrences(o.trace, ArmingSet(Disarmed)) == 1
      && Occurrences(o.trace, AlarmSet(NoAlarm)) == 1
      && o.state.store.alarm == Some(NoAlarm)
  {
    OccurrencesOfAlarm(SetArmingStatus(st, Disarmed).trace, NoAlarm);
  }

  /** Arming with no cat seen persists the mode once, never writes the alarm,
      and writes every sensor back inactive, one update per sensor held. */
  lemma ArmingResetsSensors(st: State, status: ArmingStatus)
    requires Valid(st)
    requires Armed(Some(status)) && !st.previousCat
    ensures var o := SetArmingStatus(st, status);
      && Occurrences(o.trace, ArmingSet(status)) == 1
      && AlarmWrites(o.trace) == []
      && Updates(o.trace) == |Repo.GetSensors(st.store)|
      && (forall s :: s in Repo.GetSensors(o.state.store) ==> !s.active)
      && o.state.store.alarm == st.store.alarm
  {
    Repo.SensorCountMatchesIds(st.store);
  }

  /** A cat seen while disarmed, then arming in home mode: the alarm fires,
      and it is written exactly once over the three calls. */
  lemma CatWhileDisarmedThenHomeAlarms(st: State)
    ensures var o1 := SetArmingStatus(st, Disarmed);
      var o2 := ProcessImage(o1.state, true);
      var o3 := SetArmingStatus(o2.state, ArmedHome);
      && o3.state.store.alarm == Some(Alarm)
      && Occurrences(o1.trace + o2.trace + o3.trace, AlarmSet(Alarm)) == 1
  {
    var o1 := SetArmingStatus(st, Disarmed);
    var o2 := ProcessImage(o1.state, true);
    var o3 := SetArmingStatus(o2.state, ArmedHome);
    var all := o1.trace + o2.trace + o3.trace;
    AlarmWritesOfSequence(o1.trace, o2.trace, o3.trace);
    OccurrencesOfAlarm(all, Alarm);
    assert multiset(AlarmWrites(all))[Alarm] == 1;
  }

  lemma AlarmWritesOfSequence(a: seq<Write>, b: seq<Write>, c: seq<Write>)
    requires AlarmWrites(a) == [NoAlarm] && AlarmWrites(b) == [] && AlarmWrites(c) == [Alarm]
    ensures AlarmWrites(a + b + c) == [NoAlarm, Alarm]
  {
    CountsAppend(a, b);
    CountsAppend(a + b, c);
  }

  /** Only home mode reacts to a cat seen earlier: arming away with the flag
      set writes no alarm. */
  lemma CatThenAwayNoAlarm(st: State)
    requires st.previousCat
    ensures var o := SetArmingStatus(st, ArmedAway);
      && AlarmWrites(o.trace) == []
      && o.state.store.alarm == st.store.alarm
  {
  }

  /** The service over the in-memory repository itself, whose cat flag
      reads false whatever was written to it. */
  function OverMock(store: Repo.Store): State
  {
    State(store, Repo.IsPreviousCatDetected(store))
  }

  /** Over the in-memory repository a recorded cat is forgotten, so arming in
      home mode afterwards never raises the alarm; the cat rule of re-arming
      needs a repository that keeps the flag. */
  lemma MockForgetsCat(store: Repo.Store)
    ensures var o := SetArmingStatus(OverMock(Repo.SetPreviousCatDetected(store, true)), ArmedHome);
      && AlarmWrites(o.trace) == []
      && o.state.store.alarm == store.alarm
  {
  }

  /** Adding and removing are single pass-through calls. */
  lemma PassThroughs(st: State, s: Sensor)
    ensures AddSensor(st, s).trace == [SensorAdded(s)]
    ensures RemoveSensor(st, s).trace == [SensorRemoved(s)]
    ensures AlarmWrites(AddSensor(st, s).trace) == [] && AlarmWrites(RemoveSensor(st, s).trace) == []
  {
  }
}
