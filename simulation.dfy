/** The simulation clocks of concepts/SimulationConcept.ts: per id, a time that advances by
    `stepSize * speed` on every step unless paused. */
module Simulations {
  import opened Wrappers

  datatype Simulation = Simulation(id: string, time: real, speed: real, paused: bool, stepSize: real)

  /** One `step`: a running clock advances by `stepSize * speed`; a paused one stays. */
  function Stepped(s: Simulation): (r: Simulation)
    ensures r.(time := s.time) == s
    ensures !s.paused ==> r.time - s.time == s.stepSize * s.speed
    ensures s.paused ==> r == s
  {
    if s.paused then s else s.(time := s.time + s.stepSize * s.speed)
  }

  /** `n` steps in a row. */
  function Steps(s: Simulation, n: nat): Simulation
    decreases n
  {
    if n == 0 then s else Steps(Stepped(s), n - 1)
  }

  /** `n` steps of a running clock advance it by `n * stepSize * speed` and change nothing else;
      a paused clock does not move. */
  lemma {:induction false} StepsAdvance(s: Simulation, n: nat)
    ensures Steps(s, n).(time := s.time) == s
    ensures !s.paused ==> Steps(s, n).time == s.time + (n as real) * s.stepSize * s.speed
    ensures s.paused ==> Steps(s, n) == s
    decreases n
  {
    if n > 0 {
      StepsAdvance(Stepped(s), n - 1);
      assert (n as real) * s.stepSize * s.speed == s.stepSize * s.speed + ((n - 1) as real) * s.stepSize * s.speed;
    }
  }

  class SimulationConcept {
    var simulations: map<string, Simulation>

    ghost predicate Valid()
      reads this
    {
      forall k :: k in simulations ==> simulations[k].id == k
    }

    constructor ()
      ensures Valid() && simulations == map[]
    {
      simulations := map[];
    }

    /** `create`: stores (or replaces) a running clock. */
    method Create(id: string, time: real, speed: real, stepSize: real) returns (r: Result<string>)
      requires Valid()
      modifies this
      ensures Valid() && r == Ok(id)
      ensures simulations == old(simulations)[id := Simulation(id, time, speed, false, stepSize)]
    {
      simulations := simulations[id := Simulation(id, time, speed, false, stepSize)];
      r := Ok(id);
    }

    /** `setTime`: only the time of a known clock changes. */
    method SetTime(id: string, time: real) returns (r: Result<string>)
      requires Valid()
      modifies this
      ensures Valid() && r == Ok(id)
      ensures simulations == if id in old(simulations)
        then old(simulations)[id := old(simulations)[id].(time := time)] else old(simulations)
    {
      if id in simulations {
        simulations := simulations[id := simulations[id].(time := time)];
      }
      r := Ok(id);
    }

    /** `setSpeed`: only the speed of a known clock changes. */
    method SetSpeed(id: string, speed: real) returns (r: Result<string>)
      requires Valid()
      modifies this
      ensures Valid() && r == Ok(id)
      ensures simulations == if id in old(simulations)
        then old(simulations)[id := old(simulations)[id].(speed := speed)] else old(simulations)
    {
      if id in simulations {
        simulations := simulations[id := simulations[id].(speed := speed)];
      }
      r := Ok(id);
    }

    /** `pause` (`paused` true) and `resume` (`paused` false): only the flag changes. */
    method SetPaused(id: string, paused: bool) returns (r: Result<string>)
      requires Valid()
      modifies this
      ensures Valid() && r == Ok(id)
      ensures simulations == if id in old(simulations)
        then old(simulations)[id := old(simulations)[id].(paused := paused)] else old(simulations)
    {
      if id in simulations {
        simulations := simulations[id := simulations[id].(paused := paused)];
      }
      r := Ok(id);
    }

    /** `step`: a known, running clock advances by one step; anything else stays. */
    method Step(id: string) returns (r: Result<string>)
      requires Valid()
      modifies this
      ensures Valid() && r == Ok(id)
      ensures simulations == if id in old(simulations)
        then old(simulations)[id := Stepped(old(simulations)[id])] else old(simulations)
    {
      if id in simulations && !simulations[id].paused {
        var s := simulations[id];
        simulations := simulations[id := s.(time := s.time + s.stepSize * s.speed)];
        assert simulations[id] == Stepped(s);
      } else if id in simulations {
        assert simulations[id := Stepped(simulations[id])] == simulations;
      }
      r := Ok(id);
    }

    /** `reset`: the time of a known clock goes back to 0; speed, step and flag stay. */
    method Reset(id: string) returns (r: Result<string>)
      requires Valid()
      modifies this
      ensures Valid() && r == Ok(id)
      ensures simulations == if id in old(simulations)
        then old(simulations)[id := old(simulations)[id].(time := 0.0)] else old(simulations)
    {
      if id in simulations {
        simulations := simulations[id := simulations[id].(time := 0.0)];
      }
      r := Ok(id);
    }

    /** `_getById`. */
    function GetById(id: string): (r: seq<Simulation>)
      reads this
      ensures |r| <= 1
      ensures r != [] <==> id in simulations
      ensures r != [] ==> r[0] == simulations[id]
    {
      if id in simulations then [simulations[id]] else []
    }

    /** `_getActive`: the clock, when it exists and is running. */
    function GetActive(id: string): (r: seq<Simulation>)
      reads this
      ensures |r| <= 1
      ensures r != [] <==> id in simulations && !simulations[id].paused
      ensures r != [] ==> r[0] == simulations[id]
    {
      if id in simulations && !simulations[id].paused then [simulations[id]] else []
    }
  }
}
