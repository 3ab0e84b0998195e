/** The alarm rule engine. Each public operation reads the repository, decides
    the next statuses, and returns the repository after its writes together
    with the writes themselves, in the order it issues them. */
module SecurityService {
  import opened SecurityData
  import Repo = MockRepository
  import opened Writes

  datatype Outcome = Outcome(state: State, trace: seq<Write>)

  /** The alarm write a trace ends with, if the rule chose one. */
  function AlarmTrace(next: Option<AlarmStatus>): (t: seq<Write>)
    ensures Updates(t) == 0
    ensures AlarmWrites(t) == (if next.Some? then [next.value] else [])
    ensures |t| == |AlarmWrites(t)|
    ensures forall a :: Occurrences(t, AlarmSet(a)) == (if next == Some(a) then 1 else 0)
  {
    if next.Some? then
      CountsSingle(AlarmSet(next.value));
      [AlarmSet(next.value)]
    else
      []
  }

  function WithAlarm(st: State, next: Option<AlarmStatus>): (r: State)
    ensures next.Some? ==> r.store.alarm == next
    ensures next.None? ==> r == st
    ensures r.store.sensors == st.store.sensors && r.store.arming == st.store.arming
    ensures r.previousCat == st.previousCat
  {
    if next.Some? then st.(store := Repo.SetAlarmStatus(st.store, next.value)) else st
  }

  lemma ReplayAlarmTrace(st: State, next: Option<AlarmStatus>)
    ensures Replay(st, AlarmTrace(next)) == WithAlarm(st, next)
  {
    if next.Some? {
      assert AlarmTrace(next)[1..] == [];
    }
  }

  // ---- Sensor activation ----

  /** The alarm status a sensor activation change writes, if any, given the
      current alarm and arming registers, the activation the caller's record
      reports, and the requested activation. A firing alarm is never touched
      by sensors; an activation escalates one level unless disarmed; only a
      real active-to-inactive change while pending clears the alarm. */
  function SensorRule(alarm: Option<AlarmStatus>, arming: Option<ArmingStatus>,
                      wasActive: bool, active: bool): (next: Option<AlarmStatus>)
    ensures alarm == Some(Alarm) || alarm.None? ==> next.None?
    ensures active ==>
      (next.Some? <==> alarm.Some? && alarm.value != Alarm && NotDisarmed(arming))
    ensures active && next.Some? ==> Severity(next.value) == Severity(alarm.value) + 1
    ensures !active ==> (next.Some? <==> wasActive && alarm == Some(PendingAlarm))
    ensures !active && next.Some? ==> next.value == NoAlarm
  {
    if alarm == Some(Alarm) then None
    else if active then
      if arming == Some(Disarmed) then None
      else
        match alarm
        case Some(NoAlarm) => Some(PendingAlarm)
        case Some(PendingAlarm) => Some(Alarm)
        case _ => None
    else if wasActive && alarm == Some(PendingAlarm) then Some(NoAlarm)
    else None
  }

  /** `changeSensorActivationStatus(sensor, active)`: the caller's record
      carries the previous activation; the record with the new activation is
      always written back, and at most one alarm write follows. */
  function ChangeSensorActivationStatus(st: State, sensor: Sensor, active: bool): (o: Outcome)
    ensures Updates(o.trace) == 1
    ensures |o.trace| == Updates(o.trace) + |AlarmWrites(o.trace)|
    ensures o.trace[0] == SensorUpdated(sensor.(active := active))
    ensures Occurrences(o.trace, SensorUpdated(sensor.(active := active))) == 1
    ensures |AlarmWrites(o.trace)| <= 1
    ensures st.store.alarm == Some(Alarm) ==> AlarmWrites(o.trace) == [] && o.state.store.alarm == st.store.alarm
    ensures st.store.alarm.Some? ==> o.state.store.alarm.Some?
    ensures active && st.store.alarm.Some? ==>
      Severity(o.state.store.alarm.value) >= Severity(st.store.alarm.value)
    ensures !active && st.store.alarm.Some? ==>
      Severity(o.state.store.alarm.value) <= Severity(st.store.alarm.value)
    ensures o.state.store.arming == st.store.arming && o.state.previousCat == st.previousCat
    ensures o.state.store.sensors.Keys == st.store.sensors.Keys
    ensures forall id :: id in st.store.sensors && id != sensor.id ==>
      o.state.store.sensors[id] == st.store.sensors[id]
    ensures Valid(st) ==> Valid(o.state)
    ensures Valid(st) && sensor.id in st.store.sensors ==>
      o.state.store.sensors[sensor.id] == sensor.(active := active)
    ensures var next := SensorRule(st.store.alarm, st.store.arming, sensor.active, active);
      && AlarmWrites(o.trace) == (if next.Some? then [next.value] else [])
      && o.state.store.alarm == (if next.Some? then next else st.store.alarm)
  {
    var written := sensor.(active := active);
    var next := SensorRule(st.store.alarm, st.store.arming, sensor.active, active);
    var updated := st.(store := Repo.UpdateSensor(st.store, written));
    CountsSingle(SensorUpdated(written));
    CountsAppend([SensorUpdated(written)], AlarmTrace(next));
    Outcome(WithAlarm(updated, next), [SensorUpdated(written)] + AlarmTrace(next))
  }

  // ---- Arming change ----

  /** Every sensor of `m`, switched off. */
  function AllInactive(m: map<SensorId, Sensor>): (r: map<SensorId, Sensor>)
    ensures r.Keys == m.Keys
    ensures forall id :: id in r ==> !r[id].active
    ensures forall id :: id in r ==>
      r[id].id == m[id].id && r[id].name == m[id].name && r[id].kind == m[id].kind
  {
    map id | id in m :: m[id].(active := false)
  }

  /** One `updateSensor` per listed id, writing that sensor back inactive. */
  function ResetWrites(m: map<SensorId, Sensor>, ids: seq<SensorId>): (t: seq<Write>)
    requires forall i :: 0 <= i < |ids| ==> ids[i] in m
    ensures |t| == |ids|
    ensures Updates(t) == |ids|
    ensures AlarmWrites(t) == []
    ensures forall i :: 0 <= i < |ids| ==> t[i] == SensorUpdated(m[ids[i]].(active := false))
    decreases |ids|
  {
    if ids == [] then []
    else
      var w := SensorUpdated(m[ids[0]].(active := false));
      var rest := ResetWrites(m, ids[1..]);
      CountsSingle(w);
      CountsAppend([w], rest);
      [w] + rest
  }

  /** The cat rule of re-arming: home mode with a cat seen raises the alarm. */
  function CatRule(previousCat: bool, status: ArmingStatus): (next: Option<AlarmStatus>)
    ensures next.Some? <==> previousCat && status == ArmedHome
    ensures next.Some? ==> next.value == Alarm
  {
    if previousCat && status == ArmedHome then Some(Alarm) else None
  }

  /** `setArmingStatus(status)`: persists the mode; disarming clears the
      alarm; arming resets every sensor to inactive, one update each, and then
      raises the alarm only for home mode with a cat seen. The sensor resets
      never feed back into the alarm. */
  function SetArmingStatus(st: State, status: ArmingStatus): (o: Outcome)
    ensures o.state.store.arming == Some(status)
    ensures |o.trace| >= 1 && o.trace[0] == ArmingSet(status)
    ensures Occurrences(o.trace, ArmingSet(status)) == 1
    ensures o.state.previousCat == st.previousCat
    ensures o.state.store.sensors.Keys == st.store.sensors.Keys
    ensures status == Disarmed ==>
      && o.state.store.alarm == Some(NoAlarm)
      && AlarmWrites(o.trace) == [NoAlarm]
      && Updates(o.trace) == 0
      && o.state.store.sensors == st.store.sensors
    ensures status != Disarmed ==>
      && Updates(o.trace) == |st.store.sensors|
      && (forall id :: id in o.state.store.sensors ==> !o.state.store.sensors[id].active)
      && AlarmWrites(o.trace) == (if st.previousCat && status == ArmedHome then [Alarm] else [])
      && o.state.store.alarm == (if st.previousCat && status == ArmedHome then Some(Alarm) else st.store.alarm)
    ensures status != Disarmed ==> forall id :: id in st.store.sensors ==>
      o.state.store.sensors[id] == st.store.sensors[id].(active := false)
    ensures status != Disarmed && Valid(st) ==> forall id :: id in st.store.sensors ==>
      Occurrences(o.trace, SensorUpdated(st.store.sensors[id].(active := false))) == 1
    ensures |o.trace| == 1 + Updates(o.trace) + |AlarmWrites(o.trace)|
    ensures status != Disarmed ==> forall i :: 1 <= i <= Updates(o.trace) ==> o.trace[i].SensorUpdated?
    ensures status != Disarmed && AlarmWrites(o.trace) != [] ==> o.trace[|o.trace| - 1] == AlarmSet(Alarm)
    ensures Valid(st) ==> Valid(o.state)
  {
    if status == Disarmed then Disarm(st) else Arm(st, status)
  }

  /** The disarming branch of `setArmingStatus`. */
  function Disarm(st: State): (o: Outcome)
    ensures o.state.store.arming == Some(Disarmed)
    ensures |o.trace| >= 1 && o.trace[0] == ArmingSet(Disarmed)
    ensures Occurrences(o.trace, ArmingSet(Disarmed)) == 1
    ensures o.state.previousCat == st.previousCat
    ensures o.state.store.alarm == Some(NoAlarm)
    ensures AlarmWrites(o.trace) == [NoAlarm]
    ensures Updates(o.trace) == 0
    ensures |o.trace| == 1 + Updates(o.trace) + |AlarmWrites(o.trace)|
    ensures o.state.store.sensors == st.store.sensors
  {
    var t := [ArmingSet(Disarmed), AlarmSet(NoAlarm)];
    CountsSingle(ArmingSet(Disarmed));
    CountsSingle(AlarmSet(NoAlarm));
    CountsAppend([ArmingSet(Disarmed)], [AlarmSet(NoAlarm)]);
    assert [ArmingSet(Disarmed)] + [AlarmSet(NoAlarm)] == t;
    var armed := st.(store := Repo.SetArmingStatus(st.store, Disarmed));
    Outcome(WithAlarm(armed, Some(NoAlarm)), t)
  }

  /** The arming branch of `setArmingStatus`. */
  function Arm(st: State, status: ArmingStatus): (o: Outcome)
    requires status != Disarmed
    ensures o.state.store.arming == Some(status)
    ensures |o.trace| >= 1 && o.trace[0] == ArmingSet(status)
    ensures Occurrences(o.trace, ArmingSet(status)) == 1
    ensures o.state.previousCat == st.previousCat
    ensures o.state.store.sensors.Keys == st.store.sensors.Keys
    ensures Updates(o.trace) == |st.store.sensors|
    ensures forall id :: id in o.state.store.sensors ==> !o.state.store.sensors[id].active
    ensures AlarmWrites(o.trace) == (if st.previousCat && status == ArmedHome then [Alarm] else [])
    ensures o.state.store.alarm == (if st.previousCat && status == ArmedHome then Some(Alarm) else st.store.alarm)
    ensures forall id :: id in st.store.sensors ==>
      o.state.store.sensors[id] == st.store.sensors[id].(active := false)
    ensures Valid(st) ==> forall id :: id in st.store.sensors ==>
      Occurrences(o.trace, SensorUpdated(st.store.sensors[id].(active := false))) == 1
    ensures |o.trace| == 1 + Updates(o.trace) + |AlarmWrites(o.trace)|
    ensures forall i :: 1 <= i <= Updates(o.trace) ==> o.trace[i].SensorUpdated?
    ensures AlarmWrites(o.trace) != [] ==> o.trace[|o.trace| - 1] == AlarmSet(Alarm)
    ensures Valid(st) ==> Valid(o.state)
  {
    var ids := Repo.Ascending(st.store.sensors.Keys);
    var resets := ResetWrites(st.store.sensors, ids);
    var cat := CatRule(st.previousCat, status);
    var armed := st.(store := Repo.SetArmingStatus(st.store, status));
    var reset := armed.(store := armed.store.(sensors := AllInactive(st.store.sensors)));
    ArmTraceCounts(status, resets, cat);
    ArmTraceUpdatesEachOnce(st.store.sensors, status, cat);
    ArmTraceShape(status, resets, cat);
    Outcome(WithAlarm(reset, cat), [ArmingSet(status)] + resets + AlarmTrace(cat))
  }

  lemma ArmTraceCounts(status: ArmingStatus, resets: seq<Write>, cat: Option<AlarmStatus>)
    requires forall i :: 0 <= i < |resets| ==> resets[i].SensorUpdated?
    ensures Occurrences([ArmingSet(status)] + resets + AlarmTrace(cat), ArmingSet(status)) == 1
    ensures Updates([ArmingSet(status)] + resets + AlarmTrace(cat)) == Updates(resets)
    ensures AlarmWrites([ArmingSet(status)] + resets + AlarmTrace(cat)) == AlarmWrites(resets) + AlarmWrites(AlarmTrace(cat))
  {
    CountsSingle(ArmingSet(status));
    ResetsOnlyUpdate(resets, status);
    CountsAppend([ArmingSet(status)], resets);
    CountsAppend([ArmingSet(status)] + resets, AlarmTrace(cat));
  }

  /** The arming trace is the mode write, then the resets, then the cat-rule
      alarm write, and nothing else. */
  lemma ArmTraceShape(status: ArmingStatus, resets: seq<Write>, cat: Option<AlarmStatus>)
    requires forall i :: 0 <= i < |resets| ==> resets[i].SensorUpdated?
    requires Updates(resets) == |resets| && AlarmWrites(resets) == []
    requires cat.Some? ==> cat.value == Alarm
    ensures var t := [ArmingSet(status)] + resets + AlarmTrace(cat);
      && |t| == 1 + Updates(t) + |AlarmWrites(t)|
      && (forall i :: 1 <= i <= Updates(t) ==> t[i].SensorUpdated?)
      && (AlarmWrites(t) != [] ==> t[|t| - 1] == AlarmSet(Alarm))
  {
    var alarm := AlarmTrace(cat);
    var t := [ArmingSet(status)] + resets + alarm;
    ArmTraceCounts(status, resets, cat);
    assert |t| == 1 + |resets| + |alarm|;
    assert Updates(t) == |resets|;
    assert AlarmWrites(t) == AlarmWrites(alarm);
    forall i | 1 <= i <= |resets|
      ensures t[i].SensorUpdated?
    {
      assert t[i] == resets[i - 1];
    }
    if cat.Some? {
      assert alarm == [AlarmSet(Alarm)];
      assert t[|t| - 1] == AlarmSet(Alarm);
    }
  }

  /** In a well-keyed map, the reset writes name each listed sensor exactly
      once, because records under distinct ids differ. */
  lemma ResetWritesEachOnce(m: map<SensorId, Sensor>, ids: seq<SensorId>, k: nat)
    requires forall id :: id in m ==> m[id].id == id
    requires forall i :: 0 <= i < |ids| ==> ids[i] in m
    requires forall i, j :: 0 <= i < j < |ids| ==> ids[i] != ids[j]
    requires k < |ids|
    ensures Occurrences(ResetWrites(m, ids), SensorUpdated(m[ids[k]].(active := false))) == 1
  {
    var t := ResetWrites(m, ids);
    forall i | 0 <= i < |t| && i != k
      ensures t[i] != t[k]
    {
      assert ids[i] != ids[k] by {
        if i < k {
          assert ids[i] != ids[k];
        } else {
          assert ids[k] != ids[i];
        }
      }
      assert t[i].sensor.id == ids[i] && t[k].sensor.id == ids[k];
    }
    OccurrencesUnique(t, k);
  }

  /** The arming write and the alarm writes around the resets name no sensor,
      so the resets alone decide how often a sensor is updated. */
  lemma ArmTraceUpdatesOfResets(status: ArmingStatus, resets: seq<Write>, cat: Option<AlarmStatus>, x: Sensor)
    ensures Occurrences([ArmingSet(status)] + resets + AlarmTrace(cat), SensorUpdated(x))
         == Occurrences(resets, SensorUpdated(x))
  {
    var w := SensorUpdated(x);
    CountsSingle(ArmingSet(status));
    OccurrencesAbsent(AlarmTrace(cat), w);
    CountsAppend([ArmingSet(status)], resets);
    CountsAppend([ArmingSet(status)] + resets, AlarmTrace(cat));
  }

  /** Resetting a well-keyed map in ascending id order updates each held
      sensor exactly once. */
  lemma AscendingResetsOnce(m: map<SensorId, Sensor>, id: SensorId)
    requires forall k :: k in m ==> m[k].id == k
    requires id in m
    ensures Occurrences(ResetWrites(m, Repo.Ascending(m.Keys)), SensorUpdated(m[id].(active := false))) == 1
  {
    var ids := Repo.Ascending(m.Keys);
    forall i, j | 0 <= i < j < |ids|
      ensures ids[i] != ids[j]
    {
      assert ids[i] < ids[j];
    }
    var k :| 0 <= k < |ids| && ids[k] == id;
    ResetWritesEachOnce(m, ids, k);
  }

  /** ... and so every held sensor, one by one. */
  lemma ArmTraceUpdatesEachOnce(m: map<SensorId, Sensor>, status: ArmingStatus, cat: Option<AlarmStatus>)
    ensures (forall k :: k in m ==> m[k].id == k) ==> forall id :: id in m ==>
      Occurrences([ArmingSet(status)] + ResetWrites(m, Repo.Ascending(m.Keys)) + AlarmTrace(cat),
                  SensorUpdated(m[id].(active := false))) == 1
  {
    if forall k :: k in m ==> m[k].id == k {
      forall id | id in m
        ensures Occurrences([ArmingSet(status)] + ResetWrites(m, Repo.Ascending(m.Keys)) + AlarmTrace(cat),
                            SensorUpdated(m[id].(active := false))) == 1
      {
        ArmTraceUpdatesOfResets(status, ResetWrites(m, Repo.Ascending(m.Keys)), cat, m[id].(active := false));
        AscendingResetsOnce(m, id);
      }
    }
  }

  /** A trace of sensor updates holds no arming write. */
  lemma {:induction false} ResetsOnlyUpdate(t: seq<Write>, status: ArmingStatus)
    requires forall i :: 0 <= i < |t| ==> t[i].SensorUpdated?
    ensures Occurrences(t, ArmingSet(status)) == 0
    decreases |t|
  {
    if t != [] {
      ResetsOnlyUpdate(t[1..], status);
    }
  }

  // ---- Image result ----

  /** No stored sensor is active; true of an empty store. */
  predicate NoSensorActive(m: map<SensorId, Sensor>)
  {
    forall id :: id in m ==> !m[id].active
  }

  /** The alarm write an image result triggers, if any: a cat in home mode
      raises the alarm whatever the sensors; no cat clears it only when no
      sensor is active. */
  function ImageRule(cat: bool, arming: Option<ArmingStatus>, m: map<SensorId, Sensor>): (next: Option<AlarmStatus>)
    ensures next == Some(Alarm) <==> cat && arming == Some(ArmedHome)
    ensures next == Some(NoAlarm) <==> !cat && NoSensorActive(m)
    ensures next != Some(PendingAlarm)
  {
    if cat && arming == Some(ArmedHome) then Some(Alarm)
    else if !cat && NoSensorActive(m) then Some(NoAlarm)
    else None
  }

  /** `processImage`: records the classifier's verdict as the previous-cat
      flag, then applies the image rule. The classifier is outside the model:
      its verdict is the `cat` input. */
  function ProcessImage(st: State, cat: bool): (o: Outcome)
    ensures o.state.previousCat == cat
    ensures |o.trace| >= 1 && o.trace[0] == CatFlagSet(cat)
    ensures |o.trace| == 1 + |AlarmWrites(o.trace)|
    ensures Updates(o.trace) == 0
    ensures cat && st.store.arming == Some(ArmedHome) ==>
      AlarmWrites(o.trace) == [Alarm] && o.state.store.alarm == Some(Alarm)
    ensures !cat && NoSensorActive(st.store.sensors) ==>
      AlarmWrites(o.trace) == [NoAlarm] && o.state.store.alarm == Some(NoAlarm)
    ensures cat && st.store.arming != Some(ArmedHome) ==>
      AlarmWrites(o.trace) == [] && o.state.store.alarm == st.store.alarm
    ensures !cat && !NoSensorActive(st.store.sensors) ==>
      AlarmWrites(o.trace) == [] && o.state.store.alarm == st.store.alarm
    ensures o.state.store.sensors == st.store.sensors && o.state.store.arming == st.store.arming
  {
    var next := ImageRule(cat, st.store.arming, st.store.sensors);
    CountsSingle(CatFlagSet(cat));
    CountsAppend([CatFlagSet(cat)], AlarmTrace(next));
    Outcome(WithAlarm(st.(previousCat := cat), next), [CatFlagSet(cat)] + AlarmTrace(next))
  }

  /** The service's scan of the sensor set for an active sensor, visiting the
      ids in ascending order. */
  method AnySensorActive(store: Repo.Store) returns (found: bool)
    ensures found <==> !NoSensorActive(store.sensors)
  {
    var ids := Repo.Ascending(store.sensors.Keys);
    found := false;
    var i := 0;
    while i < |ids|
      invariant 0 <= i <= |ids|
      invariant found <==> exists k :: 0 <= k < i && store.sensors[ids[k]].active
    {
      if store.sensors[ids[i]].active {
        found := true;
      }
      i := i + 1;
    }
    if !found {
      forall id | id in store.sensors
        ensures !store.sensors[id].active
      {
        var k :| 0 <= k < |ids| && ids[k] == id;
        assert !store.sensors[ids[k]].active;
      }
    }
  }

  // ---- Pass-throughs ----

  /** `addSensor`: a single repository call, no rule evaluated. */
  function AddSensor(st: State, s: Sensor): (o: Outcome)
    ensures Occurrences(o.trace, SensorAdded(s)) == 1 && |o.trace| == 1
    ensures AlarmWrites(o.trace) == [] && Updates(o.trace) == 0
    ensures Repo.Contains(o.state.store, s)
    ensures o.state.store.alarm == st.store.alarm && o.state.store.arming == st.store.arming
    ensures o.state.previousCat == st.previousCat
    ensures Valid(st) ==> Valid(o.state)
  {
    CountsSingle(SensorAdded(s));
    Outcome(st.(store := Repo.AddSensor(st.store, s)), [SensorAdded(s)])
  }

  /** `removeSensor`: a single repository call, no rule evaluated. */
  function RemoveSensor(st: State, s: Sensor): (o: Outcome)
    ensures Occurrences(o.trace, SensorRemoved(s)) == 1 && |o.trace| == 1
    ensures AlarmWrites(o.trace) == [] && Updates(o.trace) == 0
    ensures !Repo.Contains(o.state.store, s)
    ensures o.state.store.alarm == st.store.alarm && o.state.store.arming == st.store.arming
    ensures o.state.previousCat == st.previousCat
    ensures Valid(st) ==> Valid(o.state)
  {
    CountsSingle(SensorRemoved(s));
    Outcome(st.(store := Repo.RemoveSensor(st.store, s)), [SensorRemoved(s)])
  }

  // ---- Events ----

  /** The five calls the service accepts. */
  datatype Event =
    | SensorActivation(sensor: Sensor, active: bool)
    | ArmingChange(status: ArmingStatus)
    | ImageResult(cat: bool)
    | SensorAdd(sensor: Sensor)
    | SensorRemove(sensor: Sensor)

  function Step(st: State, e: Event): Outcome
  {
    match e
    case SensorActivation(s, a) => ChangeSensorActivationStatus(st, s, a)
    case ArmingChange(a) => SetArmingStatus(st, a)
    case ImageResult(c) => ProcessImage(st, c)
    case SensorAdd(s) => AddSensor(st, s)
    case SensorRemove(s) => RemoveSensor(st, s)
  }

  /** The calls of `es` one after another, each reading what the previous one
      left in the repository; the trace is every call's writes in order. */
  function Run(st: State, es: seq<Event>): Outcome
    decreases |es|
  {
    if es == [] then Outcome(st, [])
    else
      var first := Step(st, es[0]);
      var rest := Run(first.state, es[1..]);
      Outcome(rest.state, first.trace + rest.trace)
  }
}
