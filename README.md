# Keyboard teleoperation state machine (serial_teleop)

This project models the core of the `serial_teleop` ROS 2 node: a keyboard
teleoperation bridge that turns single keystrokes into `V,<left>,<right>`
velocity commands for a two-wheeled robot on a serial line. The node keeps
three integers: `speed`, `left_wheel` and `right_wheel`. They start at
`BASE_SPEED` (0). Every keyboard poll may change them and may write one
command line to the serial port.

Modules:

- `Options`: the `Option` datatype.
- `Decimal`: Python's `str(int)` rendering of integers (`IntToString`). A
  reader, `ParseInt`, accepts exactly the canonical renderings. The two are
  proved inverse.
- `Command`: the command text `V,<left>,<right>` (`FormatCommand`) and the
  line written to the port (`WireLine`, the text plus `\n`). A receiver's
  reading, `ParseCommand`, is proved to accept a text exactly when it is the
  formatting of the speed pair it returns. So the format is unambiguous.
- `Velocity`: the key dispatch as a pure function `Step` over a
  `VelocityState`, and `Run` for a series of polls that stops at a quit
  key. The lemmas state the per-key behaviour, the invariant
  `left == right == speed`, and the facts about sequences: no clamping, `x`
  after any number of `z`, nothing acted on after quit, and a worked example.
- `Teleop`: the node as a class `SerialTeleop` with fields `speed`,
  `leftWheel` and `rightWheel`, updated in place by `PollKeyboard`, which is
  proved to follow `Step`. The serial port is a class `SerialLink` that
  records the lines it accepted. Whether a write succeeds is an input.

Quitting (`rclpy.shutdown()` in the source) is a returned `quit` flag.
Showing the help text is a returned `help` flag.

`q` and `d` only send a command and never store the turn (lines 114-118),
so `left_wheel == right_wheel == speed` always holds.

## Model

| member | source | states |
|---|---|---|
| `Decimal.NatToString` | ROS/serial_teleop/serial_teleop/serial_teleop_extended.py:81 | the decimal digits of a non-negative speed are canonical: at least one digit, no leading zero, and "0" only for zero |
| `Decimal.IntToString` | ROS/serial_teleop/serial_teleop/serial_teleop_extended.py:81 | a speed renders as a canonical numeral made of digits and `-`, starting with `-` exactly when the speed is negative |
| `Decimal.ParseNatToString` | ROS/serial_teleop/serial_teleop/serial_teleop_extended.py:81 | the digits rendered for a non-negative speed read back as that speed |
| `Decimal.NatToStringOfParse` | ROS/serial_teleop/serial_teleop/serial_teleop_extended.py:81 | every canonical digit string is the rendering of the number it denotes |
| `Decimal.ParseIntToString` | ROS/serial_teleop/serial_teleop/serial_teleop_extended.py:81 | a rendered speed, negative or not, reads back as itself |
| `Decimal.ParseIntIffRendering` | ROS/serial_teleop/serial_teleop/serial_teleop_extended.py:81 | a string reads as speed `i` if and only if it is the rendering of `i` |
| `Command.FormatCommand` | ROS/serial_teleop/serial_teleop/serial_teleop_extended.py:81 | the command text starts with `V,` and holds no newline, so it fits on one line |
| `Command.FormatCommandAscii` | ROS/serial_teleop/serial_teleop/serial_teleop_extended.py:81 | the command text is made only of `V`, `,`, `-` and digits, so it is ASCII |
| `Command.WireLine` | ROS/serial_teleop/serial_teleop/serial_teleop_extended.py:83 | the bytes written end with a newline, and it is the only newline in them |
| `Command.ParseFormatCommand` | ROS/serial_teleop/serial_teleop/serial_teleop_extended.py:81 | a receiver reading `V,<left>,<right>` recovers exactly the left and right speeds formatted |
| `Command.ParseCommandIffFormat` | ROS/serial_teleop/serial_teleop/serial_teleop_extended.py:81 | a text reads as a command if and only if it is that command's formatting, so distinct speed pairs never share a text |
| `Velocity.Step` | ROS/serial_teleop/serial_teleop/serial_teleop_extended.py:88-124 | one poll gives the new state, the command to send if any, and the help and quit flags; a help or quit key never changes the state or sends a command, and never does both |
| `Velocity.Run` | ROS/serial_teleop/serial_teleop/serial_teleop_extended.py:123-124 | a series of timer polls (line 65) from a state, with no poll made after a quit key: at most one command per poll, and the session quits exactly when some polled key is Ctrl-C or `a` |
| `Velocity.InitialWheelsMatchSpeed` | ROS/serial_teleop/serial_teleop/serial_teleop_extended.py:51-53 | the node starts at speed 0 with both wheels equal to the speed |
| `Velocity.StopKey` | ROS/serial_teleop/serial_teleop/serial_teleop_extended.py:96-100 | `x` sets speed and both wheels to 0 from any state, sends `V,0,0`, and does not quit |
| `Velocity.FasterKey` | ROS/serial_teleop/serial_teleop/serial_teleop_extended.py:102-106 | `z` adds exactly 5 to the speed, sets both wheels to the new speed and sends it for both wheels |
| `Velocity.SlowerKey` | ROS/serial_teleop/serial_teleop/serial_teleop_extended.py:108-112 | `s` takes exactly 5 from the speed, sets both wheels to the new speed and sends it for both wheels |
| `Velocity.FasterSlowerRoundTrip` | ROS/serial_teleop/serial_teleop/serial_teleop_extended.py:102-112 | `z` then `s`, or `s` then `z`, restores the speed, and the whole state when the wheels matched the speed |
| `Velocity.TurnKeys` | ROS/serial_teleop/serial_teleop/serial_teleop_extended.py:114-118 | `q` sends `(-speed, speed)` and `d` sends `(speed, -speed)`; neither changes the stored speed or wheels |
| `Velocity.SilentKeys` | ROS/serial_teleop/serial_teleop/serial_teleop_extended.py:120-124 | any key other than `x`, `z`, `s`, `q`, `d`, and the empty poll, changes nothing and sends nothing; help is shown exactly for `h` and `?`; quit happens exactly for Ctrl-C and `a` |
| `Velocity.StepEffects` | ROS/serial_teleop/serial_teleop/serial_teleop_extended.py:96-124 | a command is sent if and only if the key is one of `x`, `z`, `s`, `q`, `d`; only `x`, `z` and `s` change the state; help is shown exactly for `h` and `?`; only Ctrl-C and `a` quit |
| `Velocity.StepKeepsWheelsMatchSpeed` | ROS/serial_teleop/serial_teleop/serial_teleop_extended.py:96-124 | every key preserves `left_wheel == right_wheel == speed` |
| `Velocity.RunKeepsWheelsMatchSpeed` | ROS/serial_teleop/serial_teleop/serial_teleop_extended.py:96-124 | `left_wheel == right_wheel == speed` holds after any series of polls that starts in such a state |
| `Velocity.RunAppend` | ROS/serial_teleop/serial_teleop/serial_teleop_extended.py:65 | the periodic polls compose: a series of keys is its first part, then the second part from the state the first left, unless the first part quit |
| `Velocity.FasterPresses` | ROS/serial_teleop/serial_teleop/serial_teleop_extended.py:102-106 | `n` presses of `z` add `5 * n` with no upper bound, and the k-th press sends the speed reached at that press |
| `Velocity.FasterFromStart` | ROS/serial_teleop/serial_teleop/serial_teleop_extended.py:102-106 | from the start, `n` presses of `z` give speed `5 * n` on both wheels |
| `Velocity.StopAfterFaster` | ROS/serial_teleop/serial_teleop/serial_teleop_extended.py:96-106 | any number of `z` presses followed by `x` ends at speed 0 with `V,0,0` as the last command |
| `Velocity.QuitEndsSession` | ROS/serial_teleop/serial_teleop/serial_teleop_extended.py:123-124 | once a quit key has been polled, no later key changes the state or sends anything |
| `Velocity.ExampleSession` | ROS/serial_teleop/serial_teleop/serial_teleop_extended.py:96-118 | keys `z, z, q, x` from the start end at (0,0,0) having sent `V,5,5`, `V,10,10`, `V,-10,10`, `V,0,0` |
| `Teleop.SerialLink.Write` | ROS/serial_teleop/serial_teleop/serial_teleop_extended.py:83 | a successful write adds the line to what the port accepted; a failed one adds nothing |
| `Teleop.SerialTeleop.constructor` | ROS/serial_teleop/serial_teleop/serial_teleop_extended.py:51-53 | the node starts with speed and both wheels at `BASE_SPEED`, and the wheels match the speed |
| `Teleop.SerialTeleop.SendVelocity` | ROS/serial_teleop/serial_teleop/serial_teleop_extended.py:80-86 | on success the text `V,<left>,<right>` plus a newline is on the wire; on failure the port is unchanged and nothing is raised |
| `Teleop.SerialTeleop.PollKeyboard` | ROS/serial_teleop/serial_teleop/serial_teleop_extended.py:88-126 | the new fields are `Step` of the old ones whether or not the write succeeds; help and quit are `Step`'s flags; the wire gains the command's line exactly when there is a command and the write succeeds; the wheels keep matching the speed |
| `Teleop.FailedWriteThenFaster` | ROS/serial_teleop/serial_teleop/serial_teleop_extended.py:102-106 | after a `z` whose write fails and a `z` whose write succeeds, the speed is 10 and only `V,10,10` is on the wire: the failed write rolled nothing back and the next key was still processed |

## Left out

- The background serial reader thread (`_serial_reader_loop`, lines 67-78): concurrent I/O with sleeps and byte decoding.
- Terminal raw mode and its restore (termios/tty, lines 61-62 and 131), and the `select`/`sys.stdin` polling (lines 90-92). A poll is given as a key or no key. A keyboard read error (lines 125-126) is only logged, so it looks the same as no key.
- Opening and closing the serial port, the 2 s settle delay, and the teardown in `destroy_node` (lines 41-47, 128-149).
- The ROS 2 framework around the node: parameters, the 20 ms timer, `rclpy.spin`, `rclpy.shutdown` and logging (lines 29-38, 65, 124, 152-160). Quit and help are returned flags. The log messages, the help text and the log line for a failed write are not modelled.
- The `duration` parameter of `_send_velocity` (line 80): it is never used.
- Teleop.SerialLink.Write: a failed write is taken to send nothing. In fact the port may already have sent a prefix of the line before the error was raised.
- Text encoding: command strings are sequences of characters, not bytes. `Command.FormatCommandAscii` shows that they are ASCII, so `.encode()` gives one byte per character.
- Bounds on speed: the source has none, and Python integers do not overflow. The model uses unbounded integers. It does not model the error Python 3.11 and later raise when `str` is asked for more than 4300 digits. That error would come after the fields were already updated, and it would need about 10^4299 presses of `z`.
- ROS/serial_teleop/setup.py (packaging metadata) and openCR/classContent/startupLiam.h (a buzzer tune on hardware timers) are not part of this model.
