/** The velocity command sent to the wheel controller: the text
    `V,<left>,<right>` with both speeds in Python's decimal rendering, written
    to the serial port followed by a newline. `ParseCommand` is the receiving
    side's reading of such a line; it is the partner against which the format
    is proved unambiguous. */
module Command {
  import opened Options
  import opened Decimal

  datatype VelocityCommand = VelocityCommand(left: int, right: int)

  /** The command text for a pair of wheel speeds. */
  function FormatCommand(left: int, right: int): (r: string)
    ensures |r| >= 5 && r[0] == 'V' && r[1] == ','
    ensures forall i :: 0 <= i < |r| ==> r[i] != '\n'
  {
    "V," + IntToString(left) + "," + IntToString(right)
  }

  /** The command text is plain ASCII: `V`, commas, minus signs and digits. */
  lemma FormatCommandAscii(left: int, right: int)
    ensures forall i :: 0 <= i < |FormatCommand(left, right)| ==> FormatCommand(left, right)[i] in "V,-0123456789"
  {
  }

  /** What is written to the port: the command text and one newline. */
  function WireLine(c: VelocityCommand): (line: string)
    ensures |line| >= 6 && line[|line| - 1] == '\n'
    ensures forall i :: 0 <= i < |line| - 1 ==> line[i] != '\n'
  {
    FormatCommand(c.left, c.right) + "\n"
  }

  /** The part of `s` before the first `sep` and the part after it. */
  function SplitAtFirst(s: string, sep: char): (r: Option<(string, string)>)
    ensures r.None? <==> sep !in s
    ensures r.Some? ==> s == r.value.0 + [sep] + r.value.1 && sep !in r.value.0
  {
    if s == [] then None
    else if s[0] == sep then Some(([], s[1..]))
    else match SplitAtFirst(s[1..], sep)
      case None => None
      case Some((a, b)) => Some(([s[0]] + a, b))
  }

  /** The split is determined: whatever precedes the first separator. */
  lemma {:induction false} SplitAtFirstUnique(a: string, b: string, sep: char)
    requires sep !in a
    ensures SplitAtFirst(a + [sep] + b, sep) == Some((a, b))
  {
    if a != [] {
      assert (a + [sep] + b)[1..] == a[1..] + [sep] + b;
      SplitAtFirstUnique(a[1..], b, sep);
      assert [a[0]] + a[1..] == a;
    }
  }

  /** Reads a line without its newline as a velocity command. */
  function ParseCommand(text: string): Option<VelocityCommand> {
    if |text| < 2 || text[..2] != "V," then None
    else match SplitAtFirst(text[2..], ',')
      case None => None
      case Some((l, r)) =>
        match (ParseInt(l), ParseInt(r))
        case (Some(left), Some(right)) => Some(VelocityCommand(left, right))
        case _ => None
  }

  /** The receiver reads back exactly the speeds that were formatted. */
  lemma ParseFormatCommand(left: int, right: int)
    ensures ParseCommand(FormatCommand(left, right)) == Some(VelocityCommand(left, right))
  {
    var l, r := IntToString(left), IntToString(right);
    var text := FormatCommand(left, right);
    assert text[..2] == "V,";
    assert text[2..] == l + [','] + r;
    assert ',' !in l;
    SplitAtFirstUnique(l, r, ',');
    ParseIntToString(left);
    ParseIntToString(right);
  }

  /** The format is unambiguous: a text is read as a command exactly when it
      is that command's formatting, so no two speed pairs share a text and
      no other text is mistaken for a command. */
  lemma ParseCommandIffFormat(text: string, c: VelocityCommand)
    ensures ParseCommand(text) == Some(c) <==> text == FormatCommand(c.left, c.right)
  {
    if text == FormatCommand(c.left, c.right) {
      ParseFormatCommand(c.left, c.right);
    }
    if ParseCommand(text) == Some(c) {
      var split := SplitAtFirst(text[2..], ',');
      var l, r := split.value.0, split.value.1;
      ParseIntIffRendering(l, c.left);
      ParseIntIffRendering(r, c.right);
      assert text == text[..2] + text[2..];
    }
  }
}
