/** The teleoperation node itself: an object whose speed and wheel fields are
    updated in place by each keyboard poll, and the serial port it writes
    commands to. The port is reduced to the lines it has accepted; whether a
    write succeeds is decided by the environment and passed in. */
module Teleop {
  import opened Options
  import opened Command
  import opened Velocity

  /** The serial port, as the record of the lines it has accepted. */
  class SerialLink {
    var written: seq<string>

    constructor ()
      ensures written == []
    {
      written := [];
    }

    /** Writes `data`; when `ok` is false the write raises and nothing is
        accepted. */
    method Write(data: string, ok: bool)
      modifies this
      ensures written == if ok then old(written) + [data] else old(written)
    {
      if ok {
        written := written + [data];
      }
    }
  }

  /** The lines a poll puts on the wire: the command's line if there is one
      and the write succeeds, nothing otherwise. */
  function Transmitted(command: Option<VelocityCommand>, writeOk: bool): seq<string> {
    if command.Some? && writeOk then [WireLine(command.value)] else []
  }

  class SerialTeleop {
    var speed: int
    var leftWheel: int
    var rightWheel: int
    const ser: SerialLink

    function State(): VelocityState
      reads this
    {
      VelocityState(speed, leftWheel, rightWheel)
    }

    ghost predicate Valid()
      reads this
    {
      WheelsMatchSpeed(State())
    }

    constructor (port: SerialLink)
      ensures State() == Initial && Valid()
      ensures ser == port
    {
      speed := BASE_SPEED;
      leftWheel := speed;
      rightWheel := speed;
      ser := port;
    }

    /** Formats and writes one command; a failed write is reported (not
        modelled) and swallowed. */
    method SendVelocity(left: int, right: int, writeOk: bool)
      modifies ser
      ensures ser.written == old(ser.written) + Transmitted(Some(VelocityCommand(left, right)), writeOk)
    {
      var cmd := FormatCommand(left, right);
      ser.Write(cmd + "\n", writeOk);
    }

    /** One keyboard poll. The fields are assigned before the write is tried,
        so a failed write leaves the new speeds in place, and the node stays
        ready for the next poll. */
    method PollKeyboard(key: Option<char>, writeOk: bool) returns (help: bool, quit: bool)
      modifies this, ser
      ensures State() == Step(old(State()), key).next
      ensures help == Step(old(State()), key).help && quit == Step(old(State()), key).quit
      ensures ser.written == old(ser.written) + Transmitted(Step(old(State()), key).command, writeOk)
      ensures old(Valid()) ==> Valid()
    {
      ghost var before := State();
      help, quit := false, false;
      if key.None? {
        return;
      }
      var ch := key.value;
      if ch == 'x' {
        leftWheel := 0;
        rightWheel := 0;
        speed := BASE_SPEED;
        SendVelocity(0, 0, writeOk);
      } else if ch == 'z' {
        speed := speed + SPEED_STEP;
        leftWheel := speed;
        rightWheel := speed;
        SendVelocity(leftWheel, rightWheel, writeOk);
      } else if ch == 's' {
        speed := speed - SPEED_STEP;
        leftWheel := speed;
        rightWheel := speed;
        SendVelocity(leftWheel, rightWheel, writeOk);
      } else if ch == 'q' {
        SendVelocity(-speed, speed, writeOk);
      } else if ch == 'd' {
        SendVelocity(speed, -speed, writeOk);
      } else if ch == 'h' || ch == '?' {
        help := true;
      } else if ch == CTRL_C || ch == 'a' {
        quit := true;
      }
      if WheelsMatchSpeed(before) {
        StepKeepsWheelsMatchSpeed(before, key);
      }
    }
  }

  /** A `z` whose write fails, then a `z` whose write succeeds: the first
      speed change is kept although nothing reached the wire, the second key
      is still acted on, and only its line is on the wire. */
  method FailedWriteThenFaster() returns (state: VelocityState, wire: seq<string>)
    ensures state == VelocityState(10, 10, 10)
    ensures wire == ["V,10,10\n"]
  {
    var port := new SerialLink();
    var node := new SerialTeleop(port);
    var _, _ := node.PollKeyboard(Some('z'), false);
    assert node.State() == VelocityState(5, 5, 5) && port.written == [];
    var _, _ := node.PollKeyboard(Some('z'), true);
    state, wire := node.State(), port.written;
    assert FormatCommand(10, 10) == "V,10,10";
    assert WireLine(VelocityCommand(10, 10)) == "V,10,10\n";
  }
}
