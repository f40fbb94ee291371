/** The browser-side clock of web/main.js (`WebSimulationConcept`): one time, speed, step size and
    running flag shared by every simulation id, which the actions take but do not use to tell
    clocks apart. */
module WebSimulation {
  import Simulations

  class WebSimulationConcept {
    var isRunning: bool
    var time: real
    var speed: real
    var stepSize: real

    /** The clock as `_getById` shows it under any id, in the shape of a server-side clock. */
    function Snapshot(id: string): (r: Simulations.Simulation)
      reads this
      ensures r.id == id && r.time == time && r.speed == speed && r.stepSize == stepSize
      ensures r.paused <==> !isRunning
    {
      Simulations.Simulation(id, time, speed, !isRunning, stepSize)
    }

    /** A running clock at time 0, speed 1, advancing 0.01 per step. */
    constructor ()
      ensures isRunning && time == 0.0 && speed == 1.0 && stepSize == 0.01
    {
      isRunning := true;
      time := 0.0;
      speed := 1.0;
      stepSize := 0.01;
    }

    /** `create`: sets time, speed and step size; the running flag stays as it was. */
    method Create(id: string, time': real, speed': real, stepSize': real) returns (r: string)
      modifies this
      ensures r == id
      ensures time == time' && speed == speed' && stepSize == stepSize' && isRunning == old(isRunning)
    {
      time := time';
      speed := speed';
      stepSize := stepSize';
      r := id;
    }

    /** `step`: the clock moves exactly as a server-side clock with the same settings does. */
    method Step(id: string) returns (r: string)
      modifies this
      ensures r == id
      ensures Snapshot(id) == Simulations.Stepped(old(Snapshot(id)))
    {
      if isRunning {
        time := time + stepSize * speed;
      }
      r := id;
    }

    /** `pause`: only the running flag changes. */
    method Pause(id: string) returns (r: string)
      modifies this
      ensures r == id
      ensures Snapshot(id) == old(Snapshot(id)).(paused := true)
    {
      isRunning := false;
      r := id;
    }

    /** `resume`: only the running flag changes. */
    method Resume(id: string) returns (r: string)
      modifies this
      ensures r == id
      ensures Snapshot(id) == old(Snapshot(id)).(paused := false)
    {
      isRunning := true;
      r := id;
    }

    /** `setSpeed`: only the speed changes. */
    method SetSpeed(id: string, speed': real) returns (r: string)
      modifies this
      ensures r == id
      ensures Snapshot(id) == old(Snapshot(id)).(speed := speed')
    {
      speed := speed';
      r := id;
    }

    /** `reset`: only the time changes, back to 0. */
    method Reset(id: string) returns (r: string)
      modifies this
      ensures r == id
      ensures Snapshot(id) == old(Snapshot(id)).(time := 0.0)
    {
      time := 0.0;
      r := id;
    }

    /** `_getById`: always exactly one record, whatever the id. */
    function GetById(id: string): (r: seq<Simulations.Simulation>)
      reads this
      ensures |r| == 1 && r[0].id == id
      ensures r[0].(id := "") == Snapshot("")
    {
      [Snapshot(id)]
    }
  }
}
