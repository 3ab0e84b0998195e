# Security service alarm engine in Dafny

This project models the alarm rule engine of the home-security service, and the in-memory security repository `MockSecurityRepository`. The service's tests replace that class with a Mockito mock, so none of its own code runs there. The engine is modelled against a repository that keeps every write, the previous-cat flag included. The in-memory repository's own behaviour, which discards that flag, is modelled on its own next to the engine.

The engine (`SecurityService`) is a state machine over four things: the sensor set, the arming status (DISARMED, ARMED_HOME, ARMED_AWAY), the alarm status (NO_ALARM, PENDING_ALARM, ALARM) and the previous-cat flag. Five events drive it:

- a sensor activation change;
- an arming change;
- an image result, which is the classifier's cat verdict;
- adding a sensor;
- removing a sensor.

The engine keeps no state of its own. Every operation reads the repository and writes its decisions back. So each operation is a pure function. It returns the repository after the call together with the trace of repository writes it issued, in order. The unit tests count calls ("exactly once", "never"), and the lemmas state those counts over the trace.

Files:

- `security_data.dfy` (module `SecurityData`): sensors, sensor types, arming and alarm statuses, and an `Option` for status registers that were never written. The unset case stands for Java's `null`.
- `mock_repository.dfy` (module `MockRepository`): the in-memory repository. It holds sensors in a map keyed by sensor id, plus two status registers and the cat-flag stubs. It also fixes an ascending-id order in which the engine visits sensors.
- `writes.dfy` (module `Writes`): the repository writes, the engine's view of the repository (the store plus the persisted previous-cat flag), and a replay of a trace against the repository. It also counts writes: occurrences of one write, sensor updates, and the alarm statuses written.
- `security_service.dfy` (module `SecurityService`): the three rule functions and the five operations. It also has an `Event`/`Step`/`Run` layer for sequences of calls.
- `trace_consistency.dfy` (module `TraceConsistency`): for every operation and every sequence of operations, replaying the trace reproduces the reported state. So the trace is a complete account of what the call did.
- `service_scenarios.dfy` (module `ServiceScenarios`): one lemma per unit-test scenario.

The rules, as modelled:

- **Sensor activation change.** The caller's sensor record carries the previous activation. The record with the new activation is always written back with one `updateSensor`. After that, at most one alarm write follows:
  - A firing ALARM is never changed by a sensor.
  - An activation escalates NO_ALARM to PENDING_ALARM, and PENDING_ALARM to ALARM, unless the arming status is DISARMED. An unset arming status counts as "not DISARMED".
  - A real active-to-inactive change while PENDING_ALARM clears the alarm to NO_ALARM.
  - A deactivation of an already inactive sensor writes no alarm.
- **Arming change.** The new status is always persisted first.
  - DISARMED then clears the alarm.
  - Arming writes every sensor back inactive, one `updateSensor` per sensor. It then raises ALARM only when the previous-cat flag is set and the mode is ARMED_HOME. ARMED_AWAY deliberately does not react to the flag.
- **Image result.** The cat verdict is persisted as the previous-cat flag. A cat under ARMED_HOME raises ALARM, whatever the sensors say. No cat clears the alarm to NO_ALARM only when no sensor is active. An empty sensor set has no active sensor.
- **Adding and removing sensors.** Each is one repository call with no rule evaluation.

The test that deactivates every sensor while pending expects one NO_ALARM write per sensor. That count comes from a getter stubbed to PENDING_ALARM on every call, and `StubbedPendingDeactivationsClear` models it. Against a repository that keeps what it is told, only the first deactivation clears the alarm. `PendingDeactivationsInTurnClearOnce` proves that case.

## Model

| member | source | states |
|---|---|---|
| MockRepository.Fresh | security-service/src/test/java/com/service/security/service/MockSecurityRepository.java:14-16 | a new repository contains no sensor, its sensor set has size 0, and both status registers are unset |
| MockRepository.AddSensor | security-service/src/test/java/com/service/security/service/MockSecurityRepository.java:19-21 | after adding, the sensor is a member; the id set grows by exactly its id; a new id stores the given record; every sensor already held keeps its record; statuses unchanged; well-keyedness preserved |
| MockRepository.RemoveSensor | security-service/src/test/java/com/service/security/service/MockSecurityRepository.java:24-26 | after removing, the sensor is absent; exactly its id leaves the id set; every other sensor remains with its record; statuses unchanged |
| MockRepository.UpdateSensor | security-service/src/test/java/com/service/security/service/MockSecurityRepository.java:29-38 | the stored sensor with the matching id takes the activation, name and type of the argument and keeps its id; sensors with other ids are untouched; membership and size never change; an absent id leaves the store as it was |
| MockRepository.SetAlarmStatus | security-service/src/test/java/com/service/security/service/MockSecurityRepository.java:41-43 | reading the alarm status afterwards yields the value written; the arming status and the sensors are unchanged |
| MockRepository.SetArmingStatus | security-service/src/test/java/com/service/security/service/MockSecurityRepository.java:46-48 | reading the arming status afterwards yields the value written; the alarm status and the sensors are unchanged |
| MockRepository.IsPreviousCatDetected | security-service/src/test/java/com/service/security/service/MockSecurityRepository.java:66-68 | this repository always reports that no cat was seen |
| MockRepository.SetPreviousCatDetected | security-service/src/test/java/com/service/security/service/MockSecurityRepository.java:71-73 | writing the cat flag changes nothing, and the flag still reads false |
| MockRepository.SensorCountMatchesIds | security-service/src/test/java/com/service/security/service/MockSecurityRepository.java:51-53 | in a well-keyed store the returned sensor set has as many members as there are stored ids |
| MockRepository.AddThenRemove | security-service/src/test/java/com/service/security/service/MockSecurityRepository.java:19-26 | adding a sensor with a new id and then removing it restores the repository exactly |
| MockRepository.UpdateOverrides | security-service/src/test/java/com/service/security/service/MockSecurityRepository.java:29-38 | two updates of the same id equal the second update alone, so an update is idempotent and the last one wins |
| SecurityService.SensorRule | security-service/src/test/java/com/service/security/service/SecurityServiceTest.java:52-153 | the alarm never changes while ALARM or unset; an activation writes exactly when the alarm is below ALARM and the system is not disarmed, and then raises it one level; a deactivation writes exactly when an active sensor goes inactive while pending, and then the write is NO_ALARM |
| SecurityService.ChangeSensorActivationStatus | security-service/src/test/java/com/service/security/service/SecurityServiceTest.java:52-153 | exactly one `updateSensor`, carrying the record with the new activation and issued first; the trace holds that update and the alarm writes and nothing else; at most one alarm write; none while ALARM; activation never lowers the alarm and deactivation never raises it; arming, cat flag and sensor membership are unchanged; other sensors are untouched; the stored record becomes the written one; the alarm writes are exactly the one `SensorRule` chooses, and the alarm status afterwards is that choice, or the previous status when there is none |
| SecurityService.ResetWrites | security-service/src/test/java/com/service/security/service/SecurityServiceTest.java:193-208 | one update per listed sensor, each writing that sensor back inactive, and no alarm write |
| SecurityService.CatRule | security-service/src/test/java/com/service/security/service/SecurityServiceTest.java:222-236 | re-arming writes an alarm exactly when a cat was seen and the mode is ARMED_HOME, and the write is ALARM |
| SecurityService.SetArmingStatus | security-service/src/test/java/com/service/security/service/SecurityServiceTest.java:184-236 | the mode is persisted first and exactly once; the trace holds the mode write, the sensor updates and the alarm writes and nothing else, and when arming, the updates come next and a cat-rule ALARM comes last; DISARMED clears the alarm with one write and no sensor update; arming issues one update per held sensor, leaves every sensor inactive with its id, name and type kept, writes each held sensor's inactive record exactly once in a well-keyed store, and writes ALARM only for ARMED_HOME with the cat flag set, otherwise no alarm write; the sensor set and cat flag are kept |
| SecurityService.Disarm | security-service/src/test/java/com/service/security/service/SecurityServiceTest.java:184-191 | disarming persists DISARMED once and first, writes NO_ALARM as its only alarm write, updates no sensor, and writes nothing else |
| SecurityService.Arm | security-service/src/test/java/com/service/security/service/SecurityServiceTest.java:193-208 | arming persists the mode once and first, then issues one update per held sensor, then at most the cat-rule ALARM as the last write, and nothing else; leaves every sensor inactive with its id, name and type kept, writes each held sensor's inactive record exactly once in a well-keyed store, and writes an alarm only through the cat rule |
| SecurityService.ResetWritesEachOnce | security-service/src/test/java/com/service/security/service/SecurityServiceTest.java:193-208 | over distinct ids of a well-keyed map, each listed sensor's inactive record is written exactly once |
| SecurityService.ArmTraceUpdatesEachOnce | security-service/src/test/java/com/service/security/service/SecurityServiceTest.java:193-208 | the whole arming trace updates every held sensor of a well-keyed map exactly once |
| SecurityService.ArmTraceShape | security-service/src/test/java/com/service/security/service/SecurityServiceTest.java:193-236 | the arming trace is the mode write, then only sensor updates, then at most one ALARM write as its last entry, and nothing else |
| SecurityService.ImageRule | security-service/src/test/java/com/service/security/service/SecurityServiceTest.java:155-220 | ALARM is chosen exactly when a cat is seen under ARMED_HOME; NO_ALARM exactly when no cat is seen and no sensor is active; PENDING_ALARM never |
| SecurityService.ProcessImage | security-service/src/test/java/com/service/security/service/SecurityServiceTest.java:155-220 | the verdict is persisted first as the cat flag, and the only other write is the optional alarm write; a cat under ARMED_HOME writes ALARM; no cat with no active sensor writes NO_ALARM; every other case writes no alarm; no sensor update |
| SecurityService.AnySensorActive | security-service/src/test/java/com/service/security/service/SecurityServiceTest.java:170-182 | the scan over the sensor set finds an active sensor exactly when one exists |
| SecurityService.AddSensor | security-service/src/test/java/com/service/security/service/SecurityServiceTest.java:238-248 | a single `addSensor` call and nothing else; the sensor is then held; statuses and cat flag unchanged |
| SecurityService.RemoveSensor | security-service/src/test/java/com/service/security/service/SecurityServiceTest.java:250-260 | a single `removeSensor` call and nothing else; the sensor is then absent; statuses and cat flag unchanged |
| TraceConsistency.ChangeSensorActivationReplays | security-service/src/test/java/com/service/security/service/SecurityServiceTest.java:52-153 | replaying the writes of a sensor activation change reproduces the state it reports |
| TraceConsistency.ReplayResets | security-service/src/test/java/com/service/security/service/MockSecurityRepository.java:29-38 | replaying the reset updates of distinct held ids switches exactly those sensors off |
| TraceConsistency.SetArmingStatusReplays | security-service/src/test/java/com/service/security/service/SecurityServiceTest.java:193-208 | replaying the writes of an arming change reproduces its state, so the sensors read back afterwards are all inactive |
| TraceConsistency.ProcessImageReplays | security-service/src/test/java/com/service/security/service/SecurityServiceTest.java:155-182 | replaying the writes of an image result reproduces the state it reports |
| TraceConsistency.StepReplays | security-service/src/test/java/com/service/security/service/MockSecurityRepository.java:8-63 | every call keeps the repository well keyed, and its writes replay to the state it reports |
| TraceConsistency.RunReplays | security-service/src/test/java/com/service/security/service/MockSecurityRepository.java:8-63 | the same holds for any sequence of calls, each reading what the previous one left |
| TraceConsistency.StepFrame | security-service/src/test/java/com/service/security/service/SecurityServiceTest.java:238-260 | only adding and removing change sensor membership; only an image result changes the cat flag; only an arming change changes the arming status |
| ServiceScenarios.ArmedActivationPends | security-service/src/test/java/com/service/security/service/SecurityServiceTest.java:52-68 | when armed (HOME or AWAY) with NO_ALARM, an activation gives one `updateSensor` and one PENDING_ALARM write, and the alarm ends pending |
| ServiceScenarios.PendingActivationAlarms | security-service/src/test/java/com/service/security/service/SecurityServiceTest.java:70-138 | when not disarmed (an unset arming status included) and PENDING_ALARM, an activation of an inactive or an already active sensor gives one update and one ALARM write |
| ServiceScenarios.StubbedPendingDeactivationsClear | security-service/src/test/java/com/service/security/service/SecurityServiceTest.java:88-103 | with the alarm reading pending on every call, deactivating n active sensors gives n updates and n NO_ALARM writes |
| ServiceScenarios.PendingDeactivationsInTurnClearOnce | security-service/src/test/java/com/service/security/service/SecurityServiceTest.java:88-103 | against a repository that keeps what it is told, deactivating active sensors in turn while pending ends with NO_ALARM, after n updates and a single NO_ALARM write |
| ServiceScenarios.ClearedStaysCleared | security-service/src/test/java/com/service/security/service/SecurityServiceTest.java:88-103 | once the alarm is cleared, further deactivations give one update each and no alarm write |
| ServiceScenarios.FiringAlarmIgnoresSensors | security-service/src/test/java/com/service/security/service/SecurityServiceTest.java:105-119 | while ALARM, any activation or deactivation gives exactly one update and never an alarm write, and ALARM stays |
| ServiceScenarios.InactiveDeactivationKeepsAlarm | security-service/src/test/java/com/service/security/service/SecurityServiceTest.java:140-153 | deactivating an already inactive sensor gives one update of that sensor and no alarm write, whatever the registers hold |
| ServiceScenarios.CatInHomeModeAlarms | security-service/src/test/java/com/service/security/service/SecurityServiceTest.java:155-168 | a cat under ARMED_HOME writes ALARM exactly once, whatever the sensors, and sets the cat flag |
| ServiceScenarios.NoCatNoActivityClears | security-service/src/test/java/com/service/security/service/SecurityServiceTest.java:170-182 | no cat and no active sensor writes NO_ALARM exactly once |
| ServiceScenarios.NoCatEmptyStoreClears | security-service/src/test/java/com/service/security/service/SecurityServiceTest.java:170-182 | with no sensor held at all, no cat still writes NO_ALARM exactly once |
| ServiceScenarios.DisarmClears | security-service/src/test/java/com/service/security/service/SecurityServiceTest.java:184-191 | disarming writes DISARMED once and NO_ALARM once, and the alarm ends cleared |
| ServiceScenarios.ArmingResetsSensors | security-service/src/test/java/com/service/security/service/SecurityServiceTest.java:193-208 | arming with no cat seen writes the mode once, writes no alarm, issues as many updates as the sensor set has members, and every sensor read back is inactive |
| ServiceScenarios.CatWhileDisarmedThenHomeAlarms | security-service/src/test/java/com/service/security/service/SecurityServiceTest.java:222-236 | disarm, then a cat image, then arming home ends in ALARM, with ALARM written exactly once over the three calls |
| ServiceScenarios.CatThenAwayNoAlarm | security-service/src/test/java/com/service/security/service/SecurityServiceTest.java:222-236 | the counterpart of the cat-then-home scenario, and a modelling choice, since no test arms away with the cat flag set: arming away writes no alarm and leaves the alarm status as it was |
| ServiceScenarios.MockForgetsCat | security-service/src/test/java/com/service/security/service/MockSecurityRepository.java:66-73 | over the in-memory repository a written cat flag is forgotten, so arming home afterwards never raises the alarm |
| ServiceScenarios.PassThroughs | security-service/src/test/java/com/service/security/service/SecurityServiceTest.java:238-260 | adding and removing each issue exactly their one repository call and no alarm write |

## Left out

- `SecurityService.java`, `Sensor.java`, `SecurityRepository.java` and the status enums are not modelled from their code. The engine's rules are the ones the assertions of `SecurityServiceTest.java` fix. Where those assertions are silent, the model assumes these rules:
  - the sensor update is written before any alarm write;
  - `setArmingStatus` writes the mode before anything else, and writes the cat-rule ALARM after the sensor resets;
  - `processImage` writes the cat flag before any alarm write. No assertion fixes any of these orders: every check in the test file counts calls with `verify(..., times(n))`, and none checks their order;
  - an unset arming status counts as not DISARMED;
  - an unset alarm status gets no alarm write;
  - a deactivation clears the alarm only on a real active-to-inactive change while PENDING_ALARM;
  - arming away with the cat flag set writes no alarm;
  - an activation while DISARMED writes no alarm, since the activation tests arm the system or leave the arming status unset;
  - a deactivation while PENDING_ALARM clears to NO_ALARM whatever the other sensors hold. The title of test 3 ties the clear to all sensors being inactive. Its assertions cannot tell the two readings apart, because `getSensors` is unstubbed there. The model follows the per-deactivation reading;
  - `processImage` writes no alarm for a cat outside ARMED_HOME, or for no cat while a sensor is active, and it persists the cat flag with `setPreviousCatDetected`, which no test verifies;
  - the sensor resets of arming bypass the sensor rule and write no alarm. In test 10 the alarm getter is unstubbed, so either design writes nothing there.

  Sensor equality is assumed to compare ids.
- The engine's repository (`Writes.State`) keeps the previous-cat flag: a `CatFlagSet` write sets it. The in-memory `MockSecurityRepository` does the opposite. Its `setPreviousCatDetected` discards the flag and `isPreviousCatDetected` always reads false (MockSecurityRepository.java:66-73). So the engine is modelled over a repository that keeps the flag. The in-memory behaviour is modelled by `MockRepository.IsPreviousCatDetected` and `SetPreviousCatDetected`, and `ServiceScenarios.MockForgetsCat` shows the difference.
- The image classifier, with its float confidence threshold, is an external collaborator. Its verdict is the boolean `cat` input of `ProcessImage`, and no floating point is modelled.
- Mockito (`@Mock`, `when`, `verify`) is replaced by two things: explicit pre-states, and the trace of repository writes that the lemmas count. A getter stubbed with one constant answers the same on every call. `StubbedDeactivations` models that by giving every call the same pre-state.
- Unstubbed status getters (`getAlarmStatus`, `getArmingStatus`) return `null` and are modelled as unset registers (`None`). An unstubbed `getSensors` returns an empty set, and an unstubbed `isPreviousCatDetected` returns false. The scenarios model those as an empty store and a cleared cat flag.
  - An unset arming status counts as "not DISARMED".
  - An unset alarm status matches no rule case, so no alarm write follows. The Java implementation might instead fail on it, but that behaviour is not part of this model.
- The id match in `updateSensor` uses Java `==` on sensor ids, which for objects compares references. The model matches ids by equality instead.
- `getSensors()` returns the live `HashSet`, and the service mutates sensor objects in place. The model instead keeps immutable records in a map keyed by id, and every change goes through a repository write. `HashSet` iteration order is unspecified, so the model visits sensors in ascending id order.
- Collaborator failures that propagate partway through an operation are not modelled. Every repository write succeeds. No exception or partial effect is modelled.
- Concurrency is left out: each call is atomic. The GUI, preference and JSON persistence, and the module wiring in `module-info.java` contain no rule logic.
- The presentation layer's cap on the number of sensors is not enforced by the core, and it is not modelled.
