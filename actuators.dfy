/**
 * The actuator control centre: a list of actuators whose position a slider,
 * a Stop button and a Full Open button change, one actuator (by id) at a
 * time. Status follows the new position: active when open, idle when shut.
 */
module ActuatorControl {
  import Telemetry

  /** The slider's range (`max={100}`, default minimum 0). */
  const MinPosition: int := 0
  const MaxPosition: int := 100

  datatype ActuatorType = Valve | Pump | Fan

  datatype ActuatorStatus = Active | Idle | Error

  datatype Actuator = Actuator(
    id: string,
    name: string,
    kind: ActuatorType,
    status: ActuatorStatus,
    position: int,
    location: string)

  /**
   * `mockActuators`, the list the panel starts from: four actuators whose
   * status already agrees with the handlers' rule for their position.
   */
  function MockActuators(): (acts: seq<Actuator>)
    ensures |acts| == 4
    ensures forall i :: 0 <= i < |acts| ==> acts[i].status == StatusFor(acts[i].position)
  {
    [ Actuator("VALV-01", "Main O2 Valve", Valve, Active, 75, "Zone A"),
      Actuator("VALV-02", "Backup O2 Valve", Valve, Idle, 0, "Zone A"),
      Actuator("PUMP-01", "Circulation Pump", Pump, Active, 85, "Central"),
      Actuator("FAN-01", "Exhaust Fan", Fan, Active, 60, "Zone B") ]
  }

  /** The status a handler gives an actuator moved to `position`. */
  function StatusFor(position: int): (s: ActuatorStatus)
    ensures s == Active <==> position > 0
    ensures s != Error
  {
    if position > 0 then Active else Idle
  }

  /** Two records of the same actuator: everything but position and status agrees. */
  predicate SameActuator(a: Actuator, b: Actuator) {
    a.id == b.id && a.name == b.name && a.kind == b.kind && a.location == b.location
  }

  predicate InRange(a: Actuator) {
    MinPosition <= a.position <= MaxPosition
  }

  predicate AllInRange(acts: seq<Actuator>) {
    forall i :: 0 <= i < |acts| ==> InRange(acts[i])
  }

  /**
   * The next list of `handlePositionChange`: every actuator with the given
   * id takes the new position and the status that goes with it; every other
   * actuator, the order and the length stay as they were.
   */
  function PositionChanged(prev: seq<Actuator>, actuatorId: string, position: int): (next: seq<Actuator>)
    ensures |next| == |prev|
    ensures forall i :: 0 <= i < |prev| ==> SameActuator(prev[i], next[i])
    ensures forall i :: 0 <= i < |prev| && prev[i].id == actuatorId ==>
      next[i].position == position && (next[i].status == Active <==> position > 0) && next[i].status != Error
    ensures forall i :: 0 <= i < |prev| && prev[i].id != actuatorId ==> next[i] == prev[i]
  {
    seq(|prev|, i requires 0 <= i < |prev| =>
      if prev[i].id == actuatorId
      then prev[i].(position := position, status := StatusFor(position))
      else prev[i])
  }

  /**
   * The next list of `handleEmergencyStop`: the actuators with the given id
   * are shut and idle; all others stay as they were.
   */
  function EmergencyStopped(prev: seq<Actuator>, actuatorId: string): (next: seq<Actuator>)
    ensures |next| == |prev|
    ensures forall i :: 0 <= i < |prev| ==> SameActuator(prev[i], next[i])
    ensures forall i :: 0 <= i < |prev| && prev[i].id == actuatorId ==>
      next[i].position == 0 && next[i].status == Idle
    ensures forall i :: 0 <= i < |prev| && prev[i].id != actuatorId ==> next[i] == prev[i]
  {
    seq(|prev|, i requires 0 <= i < |prev| =>
      if prev[i].id == actuatorId
      then prev[i].(position := 0, status := Idle)
      else prev[i])
  }

  /** An emergency stop is the same update as sliding the actuator to 0. */
  lemma EmergencyStopIsPositionZero(prev: seq<Actuator>, actuatorId: string)
    ensures EmergencyStopped(prev, actuatorId) == PositionChanged(prev, actuatorId, 0)
  {
    var a, b := EmergencyStopped(prev, actuatorId), PositionChanged(prev, actuatorId, 0);
    assert forall i :: 0 <= i < |prev| ==> a[i] == b[i];
  }

  /** Stopping twice is stopping once. */
  lemma EmergencyStopIdempotent(prev: seq<Actuator>, actuatorId: string)
    ensures EmergencyStopped(EmergencyStopped(prev, actuatorId), actuatorId) == EmergencyStopped(prev, actuatorId)
  {
    var once := EmergencyStopped(prev, actuatorId);
    var twice := EmergencyStopped(once, actuatorId);
    assert forall i :: 0 <= i < |prev| ==> twice[i] == once[i];
  }

  /** Setting the same position twice is setting it once. */
  lemma PositionChangeIdempotent(prev: seq<Actuator>, actuatorId: string, position: int)
    ensures PositionChanged(PositionChanged(prev, actuatorId, position), actuatorId, position)
         == PositionChanged(prev, actuatorId, position)
  {
    var once := PositionChanged(prev, actuatorId, position);
    var twice := PositionChanged(once, actuatorId, position);
    assert forall i :: 0 <= i < |prev| ==> twice[i] == once[i];
  }

  /** Full Open leaves the target at 100 and active, whatever its status was, an error included. */
  lemma FullOpenClearsError(prev: seq<Actuator>, actuatorId: string, i: int)
    requires 0 <= i < |prev| && prev[i].id == actuatorId
    ensures PositionChanged(prev, actuatorId, MaxPosition)[i]
         == prev[i].(position := MaxPosition, status := Active)
  {
  }

  /** An id that names no actuator changes nothing. */
  lemma UnknownIdChangesNothing(prev: seq<Actuator>, actuatorId: string, position: int)
    requires forall i :: 0 <= i < |prev| ==> prev[i].id != actuatorId
    ensures PositionChanged(prev, actuatorId, position) == prev
    ensures EmergencyStopped(prev, actuatorId) == prev
  {
    assert forall i :: 0 <= i < |prev| ==> PositionChanged(prev, actuatorId, position)[i] == prev[i];
    assert forall i :: 0 <= i < |prev| ==> EmergencyStopped(prev, actuatorId)[i] == prev[i];
  }

  /** Slider values within 0..100 keep every position within 0..100. */
  lemma PositionsStayInRange(prev: seq<Actuator>, actuatorId: string, position: int)
    requires AllInRange(prev)
    requires MinPosition <= position <= MaxPosition
    ensures AllInRange(PositionChanged(prev, actuatorId, position))
    ensures AllInRange(EmergencyStopped(prev, actuatorId))
  {
  }

  /** The initial actuators have distinct ids and positions within 0..100. */
  lemma MockActuatorsWellFormed()
    ensures AllInRange(MockActuators())
    ensures forall i, j :: 0 <= i < j < |MockActuators()| ==> MockActuators()[i].id != MockActuators()[j].id
  {
  }

  /**
   * The valve numbers prescriptions name (`VALV-1` to `VALV-10`) are written
   * without the leading zero the panel's ids have, so no prescribed actuator
   * id is the id of an actuator on the panel.
   */
  lemma PrescribedValvesNotOnPanel(k: nat)
    requires 1 <= k <= 10
    ensures forall i :: 0 <= i < |MockActuators()| ==> MockActuators()[i].id != Telemetry.ValveId(k)
  {
    var v := Telemetry.ValveId(k);
    assert v[0] == 'V' && v[5] != '0';
    var ids := MockActuators();
    assert ids[0].id[5] == '0' && ids[1].id[5] == '0';
    assert ids[2].id[0] == 'P' && ids[3].id[0] == 'F';
  }

  /** The panel's state: the list of actuators that the handlers replace. */
  class ActuatorPanel {
    var actuators: seq<Actuator>

    constructor ()
      ensures actuators == MockActuators()
    {
      actuators := MockActuators();
    }

    /** `handlePositionChange`: the slider reports its values as an array; the first one is used. */
    method HandlePositionChange(actuatorId: string, newPosition: seq<int>)
      requires |newPosition| > 0
      modifies this
      ensures actuators == PositionChanged(old(actuators), actuatorId, newPosition[0])
      ensures AllInRange(old(actuators)) && MinPosition <= newPosition[0] <= MaxPosition ==> AllInRange(actuators)
    {
      if AllInRange(actuators) && MinPosition <= newPosition[0] <= MaxPosition {
        PositionsStayInRange(actuators, actuatorId, newPosition[0]);
      }
      actuators := PositionChanged(actuators, actuatorId, newPosition[0]);
    }

    /** `handleEmergencyStop`, the Stop button. */
    method HandleEmergencyStop(actuatorId: string)
      modifies this
      ensures actuators == EmergencyStopped(old(actuators), actuatorId)
      ensures actuators == PositionChanged(old(actuators), actuatorId, 0)
      ensures AllInRange(old(actuators)) ==> AllInRange(actuators)
    {
      EmergencyStopIsPositionZero(actuators, actuatorId);
      if AllInRange(actuators) {
        PositionsStayInRange(actuators, actuatorId, 0);
      }
      actuators := EmergencyStopped(actuators, actuatorId);
    }

    /** The Full Open button: a position change to `[100]`. */
    method FullOpen(actuatorId: string)
      modifies this
      ensures actuators == PositionChanged(old(actuators), actuatorId, MaxPosition)
      ensures forall i :: 0 <= i < |actuators| && old(actuators)[i].id == actuatorId ==>
        actuators[i].position == MaxPosition && actuators[i].status == Active
    {
      HandlePositionChange(actuatorId, [MaxPosition]);
    }
  }
}
