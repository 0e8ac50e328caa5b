/** The keystroke-to-velocity state machine of the teleoperation node, as pure
    functions: `Step` is what one poll of the keyboard does to the commanded
    speeds, and `Run` is what a series of polls does. The node class in module
    Teleop is proved to follow `Step`. */
module Velocity {
  import opened Options
  import opened Command

  /** The speed the node starts with and `x` returns to. */
  const BASE_SPEED: int := 0
  /** How much `z` adds to and `s` takes from the speed. */
  const SPEED_STEP: int := 5
  /** The Ctrl-C character, which the key dispatch treats as quit. */
  const CTRL_C: char := '\U{3}'

  datatype VelocityState = VelocityState(speed: int, left: int, right: int)

  const Initial: VelocityState := VelocityState(BASE_SPEED, BASE_SPEED, BASE_SPEED)

  /** Both stored wheel speeds equal the commanded speed. */
  predicate WheelsMatchSpeed(s: VelocityState) {
    s.left == s.speed && s.right == s.speed
  }

  /** What one keyboard poll does: the new state, the command to send if
      any, whether the help text is shown and whether the session quits. */
  datatype Effect = Effect(next: VelocityState, command: Option<VelocityCommand>, help: bool, quit: bool)

  /** One poll; `key` is None when no character was available or the read
      returned nothing. */
  function Step(s: VelocityState, key: Option<char>): (r: Effect)
    ensures r.help ==> !r.quit
    ensures r.help || r.quit ==> r.next == s && r.command == None
  {
    match key
    case None => Effect(s, None, false, false)
    case Some(ch) =>
      if ch == 'x' then
        Effect(VelocityState(BASE_SPEED, 0, 0), Some(VelocityCommand(0, 0)), false, false)
      else if ch == 'z' then
        var v := s.speed + SPEED_STEP;
        Effect(VelocityState(v, v, v), Some(VelocityCommand(v, v)), false, false)
      else if ch == 's' then
        var v := s.speed - SPEED_STEP;
        Effect(VelocityState(v, v, v), Some(VelocityCommand(v, v)), false, false)
      else if ch == 'q' then
        Effect(s, Some(VelocityCommand(-s.speed, s.speed)), false, false)
      else if ch == 'd' then
        Effect(s, Some(VelocityCommand(s.speed, -s.speed)), false, false)
      else if ch == 'h' || ch == '?' then
        Effect(s, None, true, false)
      else if ch == CTRL_C || ch == 'a' then
        Effect(s, None, false, true)
      else
        Effect(s, None, false, false)
  }

  /** Keys that end the session. */
  predicate IsQuitKey(key: Option<char>) {
    key == Some(CTRL_C) || key == Some('a')
  }

  /** Keys that send a velocity command. */
  predicate IsMotionKey(key: Option<char>) {
    key == Some('x') || key == Some('z') || key == Some('s') || key == Some('q') || key == Some('d')
  }

  /** `x` stops the robot: every speed back to zero and `V,0,0` sent. */
  lemma StopKey(s: VelocityState)
    ensures var e := Step(s, Some('x'));
      e.next == VelocityState(0, 0, 0) && e.command == Some(VelocityCommand(0, 0)) && !e.quit
    ensures FormatCommand(0, 0) == "V,0,0"
  {
  }

  /** `z` raises the speed by exactly 5, sets both wheels to it and sends it. */
  lemma FasterKey(s: VelocityState)
    ensures var e := Step(s, Some('z'));
      e.next.speed == s.speed + 5 && WheelsMatchSpeed(e.next)
      && e.command == Some(VelocityCommand(e.next.speed, e.next.speed)) && !e.quit
  {
  }

  /** `s` lowers the speed by exactly 5, sets both wheels to it and sends it. */
  lemma SlowerKey(s: VelocityState)
    ensures var e := Step(s, Some('s'));
      e.next.speed == s.speed - 5 && WheelsMatchSpeed(e.next)
      && e.command == Some(VelocityCommand(e.next.speed, e.next.speed)) && !e.quit
  {
  }

  /** `z` then `s` gives back the speed, and the whole state when the wheels
      matched the speed; `s` then `z` likewise. */
  lemma FasterSlowerRoundTrip(s: VelocityState)
    ensures Step(Step(s, Some('z')).next, Some('s')).next.speed == s.speed
    ensures Step(Step(s, Some('s')).next, Some('z')).next.speed == s.speed
    ensures WheelsMatchSpeed(s) ==> Step(Step(s, Some('z')).next, Some('s')).next == s
    ensures WheelsMatchSpeed(s) ==> Step(Step(s, Some('s')).next, Some('z')).next == s
  {
  }

  /** `q` sends a left turn (left wheel backwards) and `d` a right turn, from
      the stored speed, and neither stores anything. */
  lemma TurnKeys(s: VelocityState)
    ensures Step(s, Some('q')) == Effect(s, Some(VelocityCommand(-s.speed, s.speed)), false, false)
    ensures Step(s, Some('d')) == Effect(s, Some(VelocityCommand(s.speed, -s.speed)), false, false)
  {
  }

  /** Every key other than the motion keys, and the empty poll, leaves the
      state alone and sends nothing; help is shown for `h` and `?` only, and
      the session quits for Ctrl-C and `a` only. */
  lemma SilentKeys(s: VelocityState, key: Option<char>)
    requires !IsMotionKey(key)
    ensures Step(s, key).next == s && Step(s, key).command == None
    ensures Step(s, key).help <==> (key == Some('h') || key == Some('?'))
    ensures Step(s, key).quit <==> IsQuitKey(key)
  {
  }

  /** A command is sent exactly for the motion keys, the state changes only
      for `x`, `z` and `s`, help is shown only for `h` and `?`, and only
      Ctrl-C and `a` quit. */
  lemma StepEffects(s: VelocityState, key: Option<char>)
    ensures Step(s, key).command.Some? <==> IsMotionKey(key)
    ensures Step(s, key).next != s ==> key == Some('x') || key == Some('z') || key == Some('s')
    ensures Step(s, key).help <==> (key == Some('h') || key == Some('?'))
    ensures Step(s, key).quit <==> IsQuitKey(key)
  {
  }

  /** The wheels keep matching the speed across every key. */
  lemma StepKeepsWheelsMatchSpeed(s: VelocityState, key: Option<char>)
    requires WheelsMatchSpeed(s)
    ensures WheelsMatchSpeed(Step(s, key).next)
  {
  }

  /** The outcome of a series of polls: the final state, the commands sent
      in order, and whether a quit key ended the session. */
  datatype Session = Session(state: VelocityState, commands: seq<VelocityCommand>, quit: bool)

  function CommandList(c: Option<VelocityCommand>): seq<VelocityCommand> {
    match c
    case None => []
    case Some(v) => [v]
  }

  /** Polls `keys` in order from state `s`; a quit key ends the session and
      the polls after it are never made. */
  function Run(s: VelocityState, keys: seq<Option<char>>): (r: Session)
    ensures |r.commands| <= |keys|
    ensures r.quit <==> exists i :: 0 <= i < |keys| && IsQuitKey(keys[i])
    decreases |keys|
  {
    if keys == [] then Session(s, [], false)
    else
      var e := Step(s, keys[0]);
      if e.quit then Session(e.next, CommandList(e.command), true)
      else
        var rest := Run(e.next, keys[1..]);
        Session(rest.state, CommandList(e.command) + rest.commands, rest.quit)
  }

  /** The wheels match the speed at the start and after any series of polls. */
  lemma {:induction false} RunKeepsWheelsMatchSpeed(s: VelocityState, keys: seq<Option<char>>)
    requires WheelsMatchSpeed(s)
    ensures WheelsMatchSpeed(Run(s, keys).state)
    decreases |keys|
  {
    if keys != [] {
      StepKeepsWheelsMatchSpeed(s, keys[0]);
      if !Step(s, keys[0]).quit {
        RunKeepsWheelsMatchSpeed(Step(s, keys[0]).next, keys[1..]);
      }
    }
  }

  lemma InitialWheelsMatchSpeed()
    ensures WheelsMatchSpeed(Initial) && Initial.speed == 0
  {
  }

  /** Polling `a` and then `b` is polling `a`, then `b` from where `a` left
      off, unless `a` quit. */
  lemma {:induction false} RunAppend(s: VelocityState, a: seq<Option<char>>, b: seq<Option<char>>)
    ensures var ra := Run(s, a);
      Run(s, a + b) ==
        if ra.quit then ra
        else
          var rb := Run(ra.state, b);
          Session(rb.state, ra.commands + rb.commands, rb.quit)
    decreases |a|
  {
    if a == [] {
      assert a + b == b;
    } else {
      assert (a + b)[0] == a[0] && (a + b)[1..] == a[1..] + b;
      var e := Step(s, a[0]);
      if !e.quit {
        RunAppend(e.next, a[1..], b);
      }
    }
  }

  function Presses(ch: char, n: nat): seq<Option<char>> {
    seq(n, _ => Some(ch))
  }

  /** There is no upper bound on the speed: `n` presses of `z` add `5 * n`,
      and the k-th press sends the speed reached at that press. */
  lemma {:induction false} FasterPresses(s: VelocityState, n: nat)
    ensures n > 0 ==> Run(s, Presses('z', n)).state == VelocityState(s.speed + 5 * n, s.speed + 5 * n, s.speed + 5 * n)
    ensures n == 0 ==> Run(s, Presses('z', n)).state == s
    ensures !Run(s, Presses('z', n)).quit
    ensures |Run(s, Presses('z', n)).commands| == n
    ensures forall k :: 0 <= k < n ==>
      Run(s, Presses('z', n)).commands[k] == VelocityCommand(s.speed + 5 * (k + 1), s.speed + 5 * (k + 1))
    decreases n
  {
    if n > 0 {
      var keys := Presses('z', n);
      var e := Step(s, keys[0]);
      assert keys[1..] == Presses('z', n - 1);
      FasterPresses(e.next, n - 1);
    }
  }

  /** From the start, `n` presses of `z` give speed `5 * n` on both wheels. */
  lemma FasterFromStart(n: nat)
    ensures Run(Initial, Presses('z', n)).state == VelocityState(5 * n, 5 * n, 5 * n)
  {
    FasterPresses(Initial, n);
  }

  /** However far `z` was pressed, `x` afterwards stops everything and the
      last command sent is `V,0,0`. */
  lemma StopAfterFaster(n: nat)
    ensures var r := Run(Initial, Presses('z', n) + [Some('x')]);
      r.state == VelocityState(0, 0, 0) && !r.quit
      && |r.commands| == n + 1 && r.commands[n] == VelocityCommand(0, 0)
      && FormatCommand(r.commands[n].left, r.commands[n].right) == "V,0,0"
  {
    FasterPresses(Initial, n);
    RunAppend(Initial, Presses('z', n), [Some('x')]);
  }

  /** Nothing after a quit key is acted upon. */
  lemma {:induction false} QuitEndsSession(s: VelocityState, a: seq<Option<char>>, b: seq<Option<char>>)
    requires Run(s, a).quit
    ensures Run(s, a + b) == Run(s, a)
  {
    RunAppend(s, a, b);
  }

  /** The sequence `z, z, q, x` from the start: the states (5,5,5),
      (10,10,10), (10,10,10), (0,0,0) and the commands `V,5,5`, `V,10,10`,
      `V,-10,10`, `V,0,0`. */
  lemma ExampleSession()
    ensures Run(Initial, [Some('z'), Some('z'), Some('q'), Some('x')]) ==
      Session(VelocityState(0, 0, 0),
        [VelocityCommand(5, 5), VelocityCommand(10, 10), VelocityCommand(-10, 10), VelocityCommand(0, 0)],
        false)
    ensures FormatCommand(-10, 10) == "V,-10,10"
  {
  }
}
