/** The state each service operation reports is exactly what its writes do to
    the repository: replaying the trace on the pre-state reproduces it. So the
    trace is a complete account of the operation's effect. */
module TraceConsistency {
  import opened SecurityData
  import Repo = MockRepository
  import opened Writes
  import opened SecurityService

  lemma ReplaySingle(st: State, w: Write)
    ensures Replay(st, [w]) == Apply(st, w)
  {
    assert [w][1..] == [];
  }

  lemma ChangeSensorActivationReplays(st: State, sensor: Sensor, active: bool)
    ensures Replay(st, ChangeSensorActivationStatus(st, sensor, active).trace)
         == ChangeSensorActivationStatus(st, sensor, active).state
  {
    var written := sensor.(active := active);
    var next := SensorRule(st.store.alarm, st.store.arming, sensor.active, active);
    ReplayAppend(st, [SensorUpdated(written)], AlarmTrace(next));
    ReplaySingle(st, SensorUpdated(written));
    ReplayAlarmTrace(Apply(st, SensorUpdated(written)), next);
  }

  /** `m` with the listed sensors switched off. */
  function Deactivate(m: map<SensorId, Sensor>, ids: seq<SensorId>): (r: map<SensorId, Sensor>)
    ensures r.Keys == m.Keys
    ensures forall id :: id in m && id !in ids ==> r[id] == m[id]
    ensures forall id :: id in m && id in ids ==> r[id] == m[id].(active := false)
  {
    map id | id in m :: if id in ids then m[id].(active := false) else m[id]
  }

  /** Switching off the head first and then the rest switches off the
      whole list, when the head does not recur. */
  lemma DeactivateHead(m: map<SensorId, Sensor>, ids: seq<SensorId>)
    requires |ids| > 0 && ids[0] in m && ids[0] !in ids[1..]
    ensures Deactivate(m[ids[0] := m[ids[0]].(active := false)], ids[1..]) == Deactivate(m, ids)
  {
    var m1 := m[ids[0] := m[ids[0]].(active := false)];
    forall id | id in m
      ensures Deactivate(m1, ids[1..])[id] == Deactivate(m, ids)[id]
    {
      if id != ids[0] {
        assert id in ids <==> id in ids[1..];
      }
    }
  }

  /** Replaying the reset writes of distinct ids switches exactly those
      sensors off, provided the store still holds the records the writes were
      made from. */
  lemma {:induction false} ReplayResets(st: State, m: map<SensorId, Sensor>, ids: seq<SensorId>)
    requires Valid(st)
    requires forall i :: 0 <= i < |ids| ==> ids[i] in m && ids[i] in st.store.sensors
    requires forall i :: 0 <= i < |ids| ==> st.store.sensors[ids[i]] == m[ids[i]]
    requires forall i, j :: 0 <= i < j < |ids| ==> ids[i] != ids[j]
    ensures Replay(st, ResetWrites(m, ids))
         == st.(store := st.store.(sensors := Deactivate(st.store.sensors, ids)))
    decreases |ids|
  {
    var t := ResetWrites(m, ids);
    if ids == [] {
      assert Deactivate(st.store.sensors, ids) == st.store.sensors;
    } else {
      var rest := ids[1..];
      var st1 := Apply(st, t[0]);
      assert st1.store.sensors == st.store.sensors[ids[0] := m[ids[0]].(active := false)];
      forall k | 0 <= k < |rest|
        ensures rest[k] != ids[0]
      {
        assert rest[k] == ids[k + 1];
      }
      forall i | 0 <= i < |rest|
        ensures rest[i] in st1.store.sensors && st1.store.sensors[rest[i]] == m[rest[i]]
      {
        assert rest[i] == ids[i + 1];
      }
      assert t[1..] == ResetWrites(m, rest);
      ReplayResets(st1, m, rest);
      DeactivateHead(st.store.sensors, ids);
    }
  }

  /** Switching off a listing of every held id switches off every sensor. */
  lemma DeactivateAll(m: map<SensorId, Sensor>, ids: seq<SensorId>)
    requires forall id :: id in m ==> id in ids
    ensures Deactivate(m, ids) == AllInactive(m)
  {
  }

  /** Replaying the resets in ascending id order switches off every sensor
      of the store. */
  lemma ReplayAscendingResets(st: State)
    requires Valid(st)
    ensures Replay(st, ResetWrites(st.store.sensors, Repo.Ascending(st.store.sensors.Keys)))
         == st.(store := st.store.(sensors := AllInactive(st.store.sensors)))
  {
    var m := st.store.sensors;
    var ids := Repo.Ascending(m.Keys);
    forall i, j | 0 <= i < j < |ids|
      ensures ids[i] != ids[j]
    {
      assert ids[i] < ids[j];
    }
    ReplayResets(st, m, ids);
    DeactivateAll(m, ids);
  }

  lemma ArmReplays(st: State, status: ArmingStatus)
    requires Valid(st)
    requires status != Disarmed
    ensures Replay(st, Arm(st, status).trace) == Arm(st, status).state
  {
    var m := st.store.sensors;
    var resets := ResetWrites(m, Repo.Ascending(m.Keys));
    var cat := CatRule(st.previousCat, status);
    var armed := st.(store := Repo.SetArmingStatus(st.store, status));
    var reset := armed.(store := armed.store.(sensors := AllInactive(m)));
    assert Arm(st, status).trace == [ArmingSet(status)] + resets + AlarmTrace(cat);
    assert Arm(st, status).state == WithAlarm(reset, cat);
    ReplaySingle(st, ArmingSet(status));
    ReplayAppend(st, [ArmingSet(status)], resets);
    ReplayAscendingResets(armed);
    assert Replay(st, [ArmingSet(status)] + resets) == reset;
    ReplayAppend(st, [ArmingSet(status)] + resets, AlarmTrace(cat));
    ReplayAlarmTrace(reset, cat);
  }

  lemma SetArmingStatusReplays(st: State, status: ArmingStatus)
    requires Valid(st)
    ensures Replay(st, SetArmingStatus(st, status).trace) == SetArmingStatus(st, status).state
  {
    if status == Disarmed {
      var t := [ArmingSet(Disarmed), AlarmSet(NoAlarm)];
      assert t[1..] == [AlarmSet(NoAlarm)] && t[1..][1..] == [];
    } else {
      ArmReplays(st, status);
    }
  }

  lemma ProcessImageReplays(st: State, cat: bool)
    ensures Replay(st, ProcessImage(st, cat).trace) == ProcessImage(st, cat).state
  {
    var next := ImageRule(cat, st.store.arming, st.store.sensors);
    ReplayAppend(st, [CatFlagSet(cat)], AlarmTrace(next));
    ReplaySingle(st, CatFlagSet(cat));
    ReplayAlarmTrace(st.(previousCat := cat), next);
  }

  /** Every call keeps the repository well keyed, and its writes replay to the
      state it reports. */
  lemma StepReplays(st: State, e: Event)
    requires Valid(st)
    ensures Valid(Step(st, e).state)
    ensures Replay(st, Step(st, e).trace) == Step(st, e).state
  {
    match e
    case SensorActivation(s, a) => ChangeSensorActivationReplays(st, s, a);
    case ArmingChange(a) => SetArmingStatusReplays(st, a);
    case ImageResult(c) => ProcessImageReplays(st, c);
    case SensorAdd(s) => ReplaySingle(st, SensorAdded(s));
    case SensorRemove(s) => ReplaySingle(st, SensorRemoved(s));
  }

  /** The same holds for any sequence of calls. */
  lemma {:induction false} RunReplays(st: State, es: seq<Event>)
    requires Valid(st)
    ensures Valid(Run(st, es).state)
    ensures Replay(st, Run(st, es).trace) == Run(st, es).state
    decreases |es|
  {
    if es != [] {
      var first := Step(st, es[0]);
      StepReplays(st, es[0]);
      RunReplays(first.state, es[1..]);
      ReplayAppend(st, first.trace, Run(first.state, es[1..]).trace);
    }
  }

  /** Only adding and removing change which sensors the repository holds, and
      only an image result changes the previous-cat flag. */
  lemma StepFrame(st: State, e: Event)
    ensures !e.SensorAdd? && !e.SensorRemove? ==>
      Step(st, e).state.store.sensors.Keys == st.store.sensors.Keys
    ensures !e.ImageResult? ==> Step(st, e).state.previousCat == st.previousCat
    ensures !e.ArmingChange? ==> Step(st, e).state.store.arming == st.store.arming
  {
  }
}
