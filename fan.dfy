/** The fan actuator (src/fan.c, src/fan.h): the command each level becomes
    and the two mode switches, written to the thinkpad_acpi control file.

    The control file is modelled by the lines it has received and the number
    of `open` calls made on it; an oracle `canOpen(k)` says whether the k-th
    `open` succeeds. A line is logged exactly when its `open` succeeded:
    what `write` itself returns is ignored by the source. */
module Fan {
  import opened CStrings

  const FanMin := 0
  /** The internal "disengaged" level; the driver itself accepts 0..7. */
  const FanMax := 8

  const Disengaged := "level disengaged"

  /** `fan_set_level`'s command: "level disengaged" for level 8 and
      "level N" for any other N. */
  function LevelCommand(level: int): (cmd: string)
    ensures StartsWith(cmd, "level ")
    ensures cmd == Disengaged <==> level == FanMax
  {
    if level == FanMax then Disengaged
    else
      var cmd := "level " + IntToDecimal(level);
      assert cmd[|"level "|] != 'd' by {
        assert cmd[|"level "|] == IntToDecimal(level)[0];
        assert IntToDecimal(level)[0] == '-' || IsDigit(IntToDecimal(level)[0]);
      }
      cmd
  }

  /** The number after "level " reads back (with `atoi`) as the level. */
  lemma LevelCommandReadsBack(level: int)
    requires level != FanMax
    ensures Atoi(LevelCommand(level)[|"level "|..]) == level
  {
    AtoiOfDecimal(level, "");
    assert LevelCommand(level)[|"level "|..] == IntToDecimal(level) + "";
  }

  /** Re-applying a level yields the same command (it is a function), and
      different levels never share a command. */
  lemma LevelCommandInjective(a: int, b: int)
    requires LevelCommand(a) == LevelCommand(b)
    ensures a == b
  {
    if a != FanMax && b != FanMax {
      LevelCommandReadsBack(a);
      LevelCommandReadsBack(b);
    }
  }

  /** The command of a native level 0..7 is "level " and its one digit. */
  lemma NativeCommand(level: int)
    requires FanMin <= level < FanMax
    ensures LevelCommand(level) == "level " + [DigitChar(level)]
  {
    assert IntToDecimal(level) == Decimal(level) == [DigitChar(level)];
  }

  /** What the control file has received, and how many opens were tried. */
  datatype FanState = FanState(lines: seq<string>, opens: nat)

  /** A state after a call, with the call's return status. */
  datatype Outcome = Outcome(state: FanState, status: int)

  /** `fan_write`: under dry run nothing happens and the result is 0;
      otherwise one `open` is tried, the text and a line feed are received
      when it succeeds, and the result is 0 exactly when it succeeded. */
  function FanWrite(s: FanState, canOpen: nat -> bool, text: string, dryRun: bool): (r: Outcome)
    ensures dryRun ==> r == Outcome(s, 0)
    ensures !dryRun ==> r.state.opens == s.opens + 1
    ensures r.status == 0 || r.status == -1
    ensures r.status == 0 <==> dryRun || canOpen(s.opens)
    ensures r.state.lines == s.lines + (if !dryRun && r.status == 0 then [text + "\n"] else [])
  {
    if dryRun then Outcome(s, 0)
    else if canOpen(s.opens) then Outcome(FanState(s.lines + [text + "\n"], s.opens + 1), 0)
    else Outcome(FanState(s.lines, s.opens + 1), -1)
  }

  /** `fan_set_level`: one write of the level's command, attempted whether
      or not the level changed; its status is discarded. */
  function FanSetLevel(s: FanState, canOpen: nat -> bool, level: int, dryRun: bool): (r: FanState)
    ensures dryRun ==> r == s
    ensures !dryRun ==> r.opens == s.opens + 1
    ensures !dryRun ==> r.lines == s.lines + (if canOpen(s.opens) then [LevelCommand(level) + "\n"] else [])
  {
    FanWrite(s, canOpen, LevelCommand(level), dryRun).state
  }

  /** Two writes in sequence, the second only when the first succeeded, with
      the status of the last one tried (`ret |= fan_write(...)`). */
  function WriteBoth(s: FanState, canOpen: nat -> bool, first: string, second: string, dryRun: bool): (r: Outcome)
    ensures dryRun ==> r == Outcome(s, 0)
    ensures r.status == 0 <==> dryRun || (canOpen(s.opens) && canOpen(s.opens + 1))
    ensures !dryRun && !canOpen(s.opens) ==> r.state == FanState(s.lines, s.opens + 1)
    ensures !dryRun && canOpen(s.opens) ==>
      r.state.opens == s.opens + 2 &&
      r.state.lines == s.lines + [first + "\n"] + (if canOpen(s.opens + 1) then [second + "\n"] else [])
  {
    var a := FanWrite(s, canOpen, first, dryRun);
    if a.status == 0 then
      var b := FanWrite(a.state, canOpen, second, dryRun);
      Outcome(b.state, BitOr(a.status, b.status))
    else a
  }

  /** `fan_to_auto`: "level auto", then "enable" only if that succeeded;
      nonzero exactly when a write failed; nothing at all under dry run. */
  function FanToAuto(s: FanState, canOpen: nat -> bool, dryRun: bool): (r: Outcome)
    ensures dryRun ==> r == Outcome(s, 0)
    ensures r.status == 0 <==> dryRun || (canOpen(s.opens) && canOpen(s.opens + 1))
    ensures !dryRun && !canOpen(s.opens) ==> r.state == FanState(s.lines, s.opens + 1)
    ensures !dryRun && canOpen(s.opens) ==>
      r.state.opens == s.opens + 2 &&
      r.state.lines == s.lines + ["level auto\n"] + (if canOpen(s.opens + 1) then ["enable\n"] else [])
  {
    assert "level auto" + "\n" == "level auto\n" && "enable" + "\n" == "enable\n";
    WriteBoth(s, canOpen, "level auto", "enable", dryRun)
  }

  /** `fan_to_manual`: "disable", then the start-up level "level 3" only if
      that succeeded; nonzero exactly when a write failed; nothing at all
      under dry run. */
  function FanToManual(s: FanState, canOpen: nat -> bool, dryRun: bool): (r: Outcome)
    ensures dryRun ==> r == Outcome(s, 0)
    ensures r.status == 0 <==> dryRun || (canOpen(s.opens) && canOpen(s.opens + 1))
    ensures !dryRun && !canOpen(s.opens) ==> r.state == FanState(s.lines, s.opens + 1)
    ensures !dryRun && canOpen(s.opens) ==>
      r.state.opens == s.opens + 2 &&
      r.state.lines == s.lines + ["disable\n"] + (if canOpen(s.opens + 1) then ["level 3\n"] else [])
  {
    assert "disable" + "\n" == "disable\n" && "level 3" + "\n" == "level 3\n";
    WriteBoth(s, canOpen, "disable", "level 3", dryRun)
  }

  /** The manual switch ends on the command of level 3, the level the
      control loop starts from. */
  lemma ManualEndsAtLevelThree()
    ensures LevelCommand(3) == "level 3"
  {
    assert DigitChar(3) == '3';
    assert Decimal(3) == "3";
    assert LevelCommand(3) == "level " + IntToDecimal(3);
  }

  /** The control file `/proc/acpi/ibm/fan`. */
  class FanDevice {
    var lines: seq<string>
    var opens: nat
    const canOpen: nat -> bool

    constructor (canOpen: nat -> bool)
      ensures State() == FanState([], 0) && this.canOpen == canOpen
    {
      lines, opens := [], 0;
      this.canOpen := canOpen;
    }

    function State(): FanState
      reads this
    {
      FanState(lines, opens)
    }

    /** `fan_write`. */
    method Write(text: string, dryRun: bool) returns (ret: int)
      modifies this
      ensures var r := FanWrite(old(State()), canOpen, text, dryRun); State() == r.state && ret == r.status
    {
      if dryRun {
        return 0;
      }
      var s := text + "\n";
      ret := -1;
      var ok := canOpen(opens);
      opens := opens + 1;
      if ok {
        lines := lines + [s];
        ret := 0;
      } else {
        ret := -1;
      }
    }

    /** `fan_set_level`. */
    method SetLevel(newLevel: int, dryRun: bool)
      modifies this
      ensures State() == FanSetLevel(old(State()), canOpen, newLevel, dryRun)
    {
      var ignored;
      if newLevel == FanMax {
        ignored := Write(Disengaged, dryRun);
      } else {
        var s := "level " + IntToDecimal(newLevel);
        ignored := Write(s, dryRun);
      }
    }

    /** `fan_to_auto`. */
    method ToAuto(dryRun: bool) returns (ret: int)
      modifies this
      ensures var r := FanToAuto(old(State()), canOpen, dryRun); State() == r.state && ret == r.status
    {
      ret := 0;
      var w := Write("level auto", dryRun);
      ret := BitOr(ret, w);
      if ret == 0 {
        w := Write("enable", dryRun);
        ret := BitOr(ret, w);
      }
    }

    /** `fan_to_manual`. */
    method ToManual(dryRun: bool) returns (ret: int)
      modifies this
      ensures var r := FanToManual(old(State()), canOpen, dryRun); State() == r.state && ret == r.status
    {
      ret := 0;
      var w := Write("disable", dryRun);
      ret := BitOr(ret, w);
      if ret == 0 {
        w := Write("level 3", dryRun);
        ret := BitOr(ret, w);
      }
    }
  }

  /** `a |= b` on the two statuses `fan_write` returns. */
  function BitOr(a: int, b: int): (r: int)
    requires a == 0 || a == -1
    requires b == 0 || b == -1
    ensures r == 0 <==> a == 0 && b == 0
    ensures r == 0 || r == -1
  {
    if a == 0 && b == 0 then 0 else -1
  }
}
