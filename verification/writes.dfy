/** The repository as the security service sees it, and the writes the
    service issues to it. Each service operation reports the writes it made,
    in order, so that "exactly once" and "never" can be stated about them. */
module Writes {
  import opened SecurityData
  import Repo = MockRepository

  /** One mutator call on the repository. */
  datatype Write =
    | SensorUpdated(sensor: Sensor)
    | AlarmSet(alarm: AlarmStatus)
    | ArmingSet(arming: ArmingStatus)
    | SensorAdded(sensor: Sensor)
    | SensorRemoved(sensor: Sensor)
    | CatFlagSet(cat: bool)

  /** Repository contents behind the service: the sensor store with its two
      status registers, plus the persisted previous-cat flag. */
  datatype State = State(store: Repo.Store, previousCat: bool)

  predicate Valid(st: State)
  {
    Repo.Valid(st.store)
  }

  /** The effect of one write on the repository. */
  function Apply(st: State, w: Write): (r: State)
    ensures Valid(st) ==> Valid(r)
    ensures !w.CatFlagSet? ==> r.previousCat == st.previousCat
    ensures !w.SensorAdded? && !w.SensorRemoved? ==> r.store.sensors.Keys == st.store.sensors.Keys
    ensures !w.AlarmSet? ==> r.store.alarm == st.store.alarm
  {
    match w
    case SensorUpdated(s) => st.(store := Repo.UpdateSensor(st.store, s))
    case AlarmSet(a) => st.(store := Repo.SetAlarmStatus(st.store, a))
    case ArmingSet(a) => st.(store := Repo.SetArmingStatus(st.store, a))
    case SensorAdded(s) => st.(store := Repo.AddSensor(st.store, s))
    case SensorRemoved(s) => st.(store := Repo.RemoveSensor(st.store, s))
    case CatFlagSet(c) => st.(previousCat := c)
  }

  /** The repository after the writes of `t`, first to last. */
  function Replay(st: State, t: seq<Write>): State
    decreases |t|
  {
    if t == [] then st else Replay(Apply(st, t[0]), t[1..])
  }

  /** How many times `w` occurs in `t`. */
  function Occurrences(t: seq<Write>, w: Write): nat
    decreases |t|
  {
    if t == [] then 0 else (if t[0] == w then 1 else 0) + Occurrences(t[1..], w)
  }

  /** How many `updateSensor` calls `t` holds, whatever the sensor. */
  function Updates(t: seq<Write>): nat
    decreases |t|
  {
    if t == [] then 0 else (if t[0].SensorUpdated? then 1 else 0) + Updates(t[1..])
  }

  /** The alarm statuses `t` writes, in order. */
  function AlarmWrites(t: seq<Write>): seq<AlarmStatus>
    decreases |t|
  {
    if t == [] then [] else (if t[0].AlarmSet? then [t[0].alarm] else []) + AlarmWrites(t[1..])
  }

  /** Replaying a concatenation replays its parts one after the other. */
  lemma {:induction false} ReplayAppend(st: State, a: seq<Write>, b: seq<Write>)
    ensures Replay(st, a + b) == Replay(Replay(st, a), b)
    decreases |a|
  {
    if a == [] {
      assert a + b == b;
    } else {
      assert (a + b)[0] == a[0];
      assert (a + b)[1..] == a[1..] + b;
      ReplayAppend(Apply(st, a[0]), a[1..], b);
    }
  }

  /** All three counts add up over a concatenation. */
  lemma {:induction false} CountsAppend(a: seq<Write>, b: seq<Write>)
    ensures Updates(a + b) == Updates(a) + Updates(b)
    ensures AlarmWrites(a + b) == AlarmWrites(a) + AlarmWrites(b)
    ensures forall w :: Occurrences(a + b, w) == Occurrences(a, w) + Occurrences(b, w)
    decreases |a|
  {
    if a == [] {
      assert a + b == b;
    } else {
      assert (a + b)[0] == a[0];
      assert (a + b)[1..] == a[1..] + b;
      CountsAppend(a[1..], b);
    }
  }

  /** Counting over a trace of one write. */
  lemma CountsSingle(w: Write)
    ensures Updates([w]) == (if w.SensorUpdated? then 1 else 0)
    ensures AlarmWrites([w]) == (if w.AlarmSet? then [w.alarm] else [])
    ensures forall v :: Occurrences([w], v) == (if v == w then 1 else 0)
  {
    assert [w][1..] == [];
  }

  /** A trace writes `a` as alarm status exactly as often as `a` appears in
      its alarm writes. */
  lemma {:induction false} OccurrencesOfAlarm(t: seq<Write>, a: AlarmStatus)
    ensures Occurrences(t, AlarmSet(a)) == multiset(AlarmWrites(t))[a]
    decreases |t|
  {
    if t != [] {
      OccurrencesOfAlarm(t[1..], a);
    }
  }

  /** A write found at no position of `t` occurs there zero times. */
  lemma {:induction false} OccurrencesAbsent(t: seq<Write>, w: Write)
    requires forall i :: 0 <= i < |t| ==> t[i] != w
    ensures Occurrences(t, w) == 0
    decreases |t|
  {
    if t != [] {
      OccurrencesAbsent(t[1..], w);
    }
  }

  /** A write found at exactly one position of `t` occurs there once. */
  lemma {:induction false} OccurrencesUnique(t: seq<Write>, k: nat)
    requires k < |t|
    requires forall i :: 0 <= i < |t| && i != k ==> t[i] != t[k]
    ensures Occurrences(t, t[k]) == 1
    decreases |t|
  {
    if k == 0 {
      OccurrencesAbsent(t[1..], t[0]);
    } else {
      assert t[1..][k - 1] == t[k];
      OccurrencesUnique(t[1..], k - 1);
    }
  }
}
