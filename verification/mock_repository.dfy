/** The in-memory security repository: a sensor store keyed by sensor id and
    two status registers. Every mutator returns the new store. */
module MockRepository {
  import opened SecurityData

  datatype Store = Store(
    sensors: map<SensorId, Sensor>,
    alarm: Option<AlarmStatus>,
    arming: Option<ArmingStatus>)

  /** Every stored sensor sits under its own id. */
  predicate Valid(st: Store)
  {
    forall id :: id in st.sensors ==> st.sensors[id].id == id
  }

  /** Under id equality, `s` is a member of the store when its id is. */
  predicate Contains(st: Store, s: Sensor)
  {
    s.id in st.sensors
  }

  /** A repository as constructed: no sensors, both registers unset. */
  function Fresh(): (st: Store)
    ensures Valid(st)
    ensures forall s: Sensor :: !Contains(st, s)
    ensures |GetSensors(st)| == 0
    ensures GetAlarmStatus(st).None? && GetArmingStatus(st).None?
  {
    Store(map[], None, None)
  }

  /** Set insertion under id equality: a sensor whose id is already stored
      leaves the stored record in place. */
  function AddSensor(st: Store, s: Sensor): (r: Store)
    ensures Contains(r, s)
    ensures r.sensors.Keys == st.sensors.Keys + {s.id}
    ensures s.id !in st.sensors ==> r.sensors[s.id] == s
    ensures forall id :: id in st.sensors ==> r.sensors[id] == st.sensors[id]
    ensures r.alarm == st.alarm && r.arming == st.arming
    ensures Valid(st) ==> Valid(r)
  {
    if s.id in st.sensors then st else st.(sensors := st.sensors[s.id := s])
  }

  /** Set removal under id equality. */
  function RemoveSensor(st: Store, s: Sensor): (r: Store)
    ensures !Contains(r, s)
    ensures r.sensors.Keys == st.sensors.Keys - {s.id}
    ensures forall id :: id in r.sensors ==> r.sensors[id] == st.sensors[id]
    ensures r.alarm == st.alarm && r.arming == st.arming
    ensures Valid(st) ==> Valid(r)
  {
    st.(sensors := st.sensors - {s.id})
  }

  /** Copies activation, name and type of `s` onto the stored sensor with the
      same id; the stored id itself is kept. */
  function UpdateSensor(st: Store, s: Sensor): (r: Store)
    ensures r.sensors.Keys == st.sensors.Keys
    ensures |r.sensors| == |st.sensors|
    ensures forall id :: id in r.sensors && id != s.id ==> r.sensors[id] == st.sensors[id]
    ensures s.id in r.sensors ==>
      && r.sensors[s.id].id == st.sensors[s.id].id
      && r.sensors[s.id].active == s.active
      && r.sensors[s.id].name == s.name
      && r.sensors[s.id].kind == s.kind
    ensures s.id !in st.sensors ==> r == st
    ensures r.alarm == st.alarm && r.arming == st.arming
    ensures Valid(st) ==> Valid(r) && (s.id in st.sensors ==> r.sensors[s.id] == s)
  {
    if s.id in st.sensors then
      var stored := st.sensors[s.id];
      st.(sensors := st.sensors[s.id := stored.(active := s.active, name := s.name, kind := s.kind)])
    else
      st
  }

  function SetAlarmStatus(st: Store, a: AlarmStatus): (r: Store)
    ensures GetAlarmStatus(r) == Some(a)
    ensures GetArmingStatus(r) == GetArmingStatus(st)
    ensures r.sensors == st.sensors
  {
    st.(alarm := Some(a))
  }

  function SetArmingStatus(st: Store, s: ArmingStatus): (r: Store)
    ensures GetArmingStatus(r) == Some(s)
    ensures GetAlarmStatus(r) == GetAlarmStatus(st)
    ensures r.sensors == st.sensors
  {
    st.(arming := Some(s))
  }

  /** The stored sensor records. */
  function GetSensors(st: Store): set<Sensor>
  {
    st.sensors.Values
  }

  function GetAlarmStatus(st: Store): Option<AlarmStatus>
  {
    st.alarm
  }

  function GetArmingStatus(st: Store): Option<ArmingStatus>
  {
    st.arming
  }

  /** This repository does not keep the cat flag: it always reads false. */
  function IsPreviousCatDetected(st: Store): (cat: bool)
    ensures !cat
  {
    false
  }

  /** ... and writing the flag is ignored. */
  function SetPreviousCatDetected(st: Store, cat: bool): (r: Store)
    ensures r == st
    ensures !IsPreviousCatDetected(r)
  {
    st
  }

  /** The stored record for `s` in a valid store has the id of `s`, so the
      sensor set and the id set have the same size. */
  lemma {:induction false} SensorCountMatchesIds(st: Store)
    requires Valid(st)
    ensures |GetSensors(st)| == |st.sensors|
    decreases |st.sensors|
  {
    if st.sensors != map[] {
      var id :| id in st.sensors;
      var rest := st.(sensors := st.sensors - {id});
      SensorCountMatchesIds(rest);
      var s0 := st.sensors[id];
      forall s | s in GetSensors(st)
        ensures s in GetSensors(rest) + {s0}
      {
        var k :| k in st.sensors && st.sensors[k] == s;
        if k != id {
          assert rest.sensors[k] == s;
        }
      }
      forall s | s in GetSensors(rest)
        ensures s in GetSensors(st) && s != s0
      {
        var k :| k in rest.sensors && rest.sensors[k] == s;
        assert st.sensors[k] == s && s.id == k;
      }
      assert GetSensors(st) == GetSensors(rest) + {s0};
    }
  }

  /** Adding a sensor whose id is new and then removing it restores the store. */
  lemma AddThenRemove(st: Store, s: Sensor)
    requires !Contains(st, s)
    ensures RemoveSensor(AddSensor(st, s), s) == st
  {
    assert RemoveSensor(AddSensor(st, s), s).sensors == st.sensors;
  }

  /** Updating with a record twice is the same as once; a second update of the
      same id overrides the first. */
  lemma UpdateOverrides(st: Store, s: Sensor, t: Sensor)
    requires s.id == t.id
    ensures UpdateSensor(UpdateSensor(st, s), t) == UpdateSensor(st, t)
  {
  }

  // ---- Iteration order over the stored ids ----

  predicate IsLeast(m: SensorId, ids: set<SensorId>)
  {
    m in ids && forall id :: id in ids ==> m <= id
  }

  /** Every non-empty id set has a least element. */
  lemma {:induction false} LeastIdExists(ids: set<SensorId>)
    requires ids != {}
    ensures exists m :: IsLeast(m, ids)
    decreases |ids|
  {
    var x :| x in ids;
    if ids == {x} {
      assert IsLeast(x, ids);
    } else {
      var rest := ids - {x};
      LeastIdExists(rest);
      var m :| IsLeast(m, rest);
      var w := if x <= m then x else m;
      forall id | id in ids
        ensures w <= id
      {
        if id != x {
          assert id in rest;
        }
      }
      assert IsLeast(w, ids);
    }
  }

  function LeastId(ids: set<SensorId>): (m: SensorId)
    requires ids != {}
    ensures m in ids
    ensures forall id :: id in ids ==> m <= id
  {
    LeastIdExists(ids);
    var m :| IsLeast(m, ids);
    m
  }

  /** The ids of a set in ascending order: a listing of exactly the set, with
      no id twice. This fixes the order in which the service visits sensors. */
  function Ascending(ids: set<SensorId>): (r: seq<SensorId>)
    ensures |r| == |ids|
    ensures forall i :: 0 <= i < |r| ==> r[i] in ids
    ensures forall id :: id in ids ==> id in r
    ensures forall i, j :: 0 <= i < j < |r| ==> r[i] < r[j]
    decreases |ids|
  {
    if ids == {} then []
    else
      var m := LeastId(ids);
      [m] + Ascending(ids - {m})
  }
}
