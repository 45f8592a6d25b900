/** The control loop and start-up sequence (src/main.c): curve-name parsing,
    the start-up gating (lock, manual mode, loop, automatic mode), one cycle
    of `main_loop`, the shutdown path and the pid parse of `--stop`.

    The endless loop is modelled as a run over a finite sequence of sensor
    snapshots, one per cycle, after which a termination request arrives; the
    inter-cycle `sleep` is not modelled. */
module Control {
  import opened Wrappers
  import opened CStrings
  import Curve
  import opened HwmonScan
  import opened Fan

  /** `main_loop` starts from level 3: no reading exists yet. */
  const InitialLevel := 3
  /** The poll interval used when none, or a non-positive one, was given. */
  const DefaultInterval := 5
  /** `do_stop` reads the lock file into a 32-byte buffer. */
  const LockReadBuffer := 32

  /** `curve_from_name`: exactly the five curve names are accepted; any other
      name is reported to the caller, which logs it and exits. */
  function CurveFromName(name: string): (r: Option<Curve.CurveNum>)
    ensures r.Some? ==> Curve.Name(r.value) == name
    ensures r.None? <==> name !in Curve.CurveNames
  {
    if name == "cold" then Some(Curve.Cold)
    else if name == "cool" then Some(Curve.Cool)
    else if name == "medium" then Some(Curve.Medium)
    else if name == "warm" then Some(Curve.Warm)
    else if name == "hot" then Some(Curve.Hot)
    else None
  }

  /** Name to curve to name, and curve to name to curve, are identities. */
  lemma CurveNameRoundTrip(c: Curve.CurveNum, name: string)
    ensures CurveFromName(Curve.Name(c)) == Some(c)
    ensures CurveFromName(name).Some? ==> Curve.Name(CurveFromName(name).value) == name
  {
  }

  /** The poll interval in use: a positive one as given, any other the default. */
  function EffectiveInterval(interval: int): (r: int)
    ensures r > 0
    ensures interval > 0 ==> r == interval
    ensures interval <= 0 ==> r == DefaultInterval
  {
    if interval <= 0 then DefaultInterval else interval
  }

  /** What `get_lock` writes into the lock file: `sprintf("%d\n", pid)`. */
  function LockLine(pid: int): (line: string)
    ensures |line| >= 2 && line[|line| - 1] == '\n'
    ensures pid >= 0 ==> IsDigits(line[..|line| - 1])
    ensures pid < 0 ==> line[0] == '-' && IsDigits(line[1..|line| - 1])
  {
    IntToDecimal(pid) + "\n"
  }

  /** The pid `do_stop` signals, given the lock file's contents (absent when
      it cannot be opened). `read` yields at most 32 bytes; only 2..31 bytes
      are accepted, one trailing line feed is dropped, and the rest must
      `atoi` to a positive number. */
  function StopTarget(lockFile: Option<string>): (pid: Option<int>)
    ensures pid.Some? ==> pid.value > 0
    ensures pid.Some? ==> lockFile.Some? && 1 < |lockFile.value| < LockReadBuffer
    ensures pid.Some? ==> var c := lockFile.value;
      pid.value == Atoi(if c[|c| - 1] == '\n' then c[..|c| - 1] else c)
    ensures lockFile.Some? && 1 < |lockFile.value| < LockReadBuffer ==>
      var c := lockFile.value;
      var n := Atoi(if c[|c| - 1] == '\n' then c[..|c| - 1] else c);
      n > 0 ==> pid == Some(n)
  {
    match lockFile
    case None => None
    case Some(c) =>
      var n := if |c| < LockReadBuffer then |c| else LockReadBuffer;
      if 1 < n < LockReadBuffer then
        var line := if c[n - 1] == '\n' then c[..n - 1] else c;
        var pid := Atoi(line);
        if pid > 0 then Some(pid) else None
      else None
  }

  /** `--stop` finds the running instance: the line `get_lock` wrote for any
      positive pid a C `int` can hold parses back to that pid. */
  lemma StopFindsLockOwner(pid: int)
    requires 0 < pid < 0x8000_0000
    ensures StopTarget(Some(LockLine(pid))) == Some(pid)
  {
    assert Pow10(10) == 10_000_000_000;
    DecimalLength(pid, 10);
    AtoiOfDecimal(pid, "");
    var c := LockLine(pid);
    assert c[..|c| - 1] == IntToDecimal(pid) + "";
  }

  /** An empty or one-byte lock file, or one of 32 bytes or more, is refused. */
  lemma StopRejectsBadLength(c: string)
    requires |c| <= 1 || |c| >= LockReadBuffer
    ensures StopTarget(Some(c)) == None
  {
  }

  /** The command-line configuration the loop consumes. */
  datatype Config = Config(curve: Curve.CurveNum, interval: int, filters: Filters, foreground: bool)

  /** What `open` returns: a descriptor, or -1 when it fails. */
  type Descriptor = fd: int | fd >= -1

  /** What one lock attempt returns: the descriptor `open` gave (-1 on
      failure) and whether `flock` then succeeded. */
  datatype LockAttempt = LockAttempt(fd: Descriptor, flocked: bool)

  /** How a run of the program ends. */
  datatype RunOutcome = LockBusy | ManualRefused | Stopped(interval: int, level: int)

  /** `main_loop`'s state between cycles: the stored level and the fan. */
  datatype LoopState = LoopState(level: int, fan: FanState)

  /** One cycle: a failed scan leaves level and fan untouched; a successful
      one selects the next level from the stored one and the maximum, and
      always writes it to the fan, even when it did not change. */
  function CycleStep(c: Config, dryRun: bool, canOpen: nat -> bool, st: LoopState, fs: FileSystem): (r: LoopState)
    ensures !ScanSucceeded(fs, c.filters) ==> r == st
    ensures ScanSucceeded(fs, c.filters) ==>
      r.level == Curve.SelectLevel(c.curve, st.level, ScanResult(fs, c.filters).maxTemp)
    ensures ScanSucceeded(fs, c.filters) && !dryRun ==>
      && r.fan.opens == st.fan.opens + 1
      && r.fan.lines == st.fan.lines + (if canOpen(st.fan.opens) then [LevelCommand(r.level) + "\n"] else [])
    ensures dryRun ==> r.fan == st.fan
  {
    if ScanSucceeded(fs, c.filters) then
      var level := Curve.SelectLevel(c.curve, st.level, ScanResult(fs, c.filters).maxTemp);
      LoopState(level, FanSetLevel(st.fan, canOpen, level, dryRun))
    else st
  }

  /** The loop over a sequence of snapshots, one cycle each. */
  function LoopRun(c: Config, dryRun: bool, canOpen: nat -> bool, st: LoopState, snapshots: seq<FileSystem>): LoopState {
    if |snapshots| == 0 then st
    else CycleStep(c, dryRun, canOpen, LoopRun(c, dryRun, canOpen, st, snapshots[..|snapshots| - 1]), snapshots[|snapshots| - 1])
  }

  /** The level never leaves 0..8 once it starts there. */
  lemma {:induction false} LoopLevelInRange(c: Config, dryRun: bool, canOpen: nat -> bool, st: LoopState, snapshots: seq<FileSystem>)
    requires 0 <= st.level <= FanMax
    ensures 0 <= LoopRun(c, dryRun, canOpen, st, snapshots).level <= FanMax
  {
    if |snapshots| > 0 {
      LoopLevelInRange(c, dryRun, canOpen, st, snapshots[..|snapshots| - 1]);
    }
  }

  /** Cycles whose scan fails change nothing: with no sensor ever found, the
      level and the fan stay as they were. */
  lemma {:induction false} LoopWithoutSensors(c: Config, dryRun: bool, canOpen: nat -> bool, st: LoopState, snapshots: seq<FileSystem>)
    requires forall i :: 0 <= i < |snapshots| ==> !ScanSucceeded(snapshots[i], c.filters)
    ensures LoopRun(c, dryRun, canOpen, st, snapshots) == st
  {
    if |snapshots| > 0 {
      var init := snapshots[..|snapshots| - 1];
      assert forall i :: 0 <= i < |init| ==> init[i] == snapshots[i];
      LoopWithoutSensors(c, dryRun, canOpen, st, init);
    }
  }

  /** Under dry run the fan is never touched, however many cycles run. */
  lemma {:induction false} LoopDryRun(c: Config, canOpen: nat -> bool, st: LoopState, snapshots: seq<FileSystem>)
    ensures LoopRun(c, true, canOpen, st, snapshots).fan == st.fan
  {
    if |snapshots| > 0 {
      LoopDryRun(c, canOpen, st, snapshots[..|snapshots| - 1]);
    }
  }

  /** The process-wide state main.c keeps in globals (`dry_run`, `lock_fd`),
      the lock file, the fan and the scan context. `closedFds` records the
      descriptors `close` was called on. */
  class FanDaemon {
    const dryRun: bool
    var lockFd: Descriptor
    var lockLinked: bool
    var closedFds: seq<int>
    const fan: FanDevice
    const sensors: HSContext

    constructor (dryRun: bool, fan: FanDevice, sensors: HSContext)
      ensures this.dryRun == dryRun && this.fan == fan && this.sensors == sensors
      ensures lockFd == -1 && !lockLinked && closedFds == []
    {
      this.dryRun := dryRun;
      this.fan := fan;
      this.sensors := sensors;
      lockFd := -1;
      lockLinked := false;
      closedFds := [];
    }

    /** `get_lock`: the descriptor is kept even when `flock` fails. */
    method GetLock(attempt: LockAttempt) returns (ret: int)
      modifies this
      ensures lockFd == attempt.fd && closedFds == old(closedFds)
      ensures lockLinked == (old(lockLinked) || attempt.fd != -1)
      ensures ret == (if attempt.fd != -1 && attempt.flocked then 0 else -1)
    {
      lockFd := attempt.fd;
      if lockFd == -1 {
        return -1;
      }
      lockLinked := true;
      if attempt.flocked {
        return 0;
      }
      return -1;
    }

    /** `remove_lock`: closes the descriptor if there is one, forgets it and
        unlinks the lock file. A second call closes nothing more. */
    method RemoveLock()
      modifies this
      ensures lockFd == -1 && !lockLinked
      ensures closedFds == old(closedFds) + (if old(lockFd) != -1 then [old(lockFd)] else [])
    {
      if lockFd != -1 {
        closedFds := closedFds + [lockFd];
      }
      lockFd := -1;
      lockLinked := false;
    }

    /** `signal_quit`: back to automatic fan control, whatever that returns,
        then release the lock. */
    method SignalQuit()
      modifies this, fan
      ensures fan.State() == FanToAuto(old(fan.State()), fan.canOpen, dryRun).state
      ensures lockFd == -1 && !lockLinked
      ensures closedFds == old(closedFds) + (if old(lockFd) != -1 then [old(lockFd)] else [])
    {
      var ignored := fan.ToAuto(dryRun);
      RemoveLock();
    }

    /** One iteration of `main_loop`'s body. */
    method Cycle(c: Config, level: int, fs: FileSystem) returns (newLevel: int)
      modifies fan, sensors
      ensures var r := CycleStep(c, dryRun, fan.canOpen, LoopState(level, old(fan.State())), fs);
        newLevel == r.level && fan.State() == r.fan
      ensures sensors.State() == ScanResult(fs, c.filters)
    {
      newLevel := level;
      var ret := sensors.Scan(fs, c.filters.nowifi, c.filters.nodrivetemp);
      if ret == 0 {
        newLevel := Curve.GetLevel(c.curve, level, sensors.maxTemp);
        fan.SetLevel(newLevel, dryRun);
      }
    }

    /** `main_loop`, run for one cycle per snapshot. */
    method MainLoop(c: Config, snapshots: seq<FileSystem>) returns (level: int)
      modifies fan, sensors
      ensures var r := LoopRun(c, dryRun, fan.canOpen, LoopState(InitialLevel, old(fan.State())), snapshots);
        level == r.level && fan.State() == r.fan
    {
      level := InitialLevel;
      var i := 0;
      while i < |snapshots|
        invariant 0 <= i <= |snapshots|
        invariant var r := LoopRun(c, dryRun, fan.canOpen, LoopState(InitialLevel, old(fan.State())), snapshots[..i]);
          level == r.level && fan.State() == r.fan
      {
        level := Cycle(c, level, snapshots[i]);
        assert snapshots[..i + 1][..i] == snapshots[..i];
        i := i + 1;
      }
      assert snapshots[..i] == snapshots;
    }

    /** `main` from the lock onwards: manual mode is tried only once the lock
        is held; the loop runs only when manual mode succeeded; a process
        that is not in the foreground drops and retakes the lock around
        `daemon`; the lock is released on every path that obtained it. The
        loop ends with a termination request, handled by `signal_quit`. */
    method Run(c: Config, first: LockAttempt, relock: LockAttempt, snapshots: seq<FileSystem>) returns (outcome: RunOutcome)
      modifies this, fan, sensors
      ensures outcome.LockBusy? <==> !(first.fd != -1 && first.flocked)
      ensures outcome.LockBusy? ==>
        && fan.State() == old(fan.State())
        && lockFd == first.fd && closedFds == old(closedFds)
        && lockLinked == (old(lockLinked) || first.fd != -1)
      ensures !outcome.LockBusy? ==> lockFd == -1 && !lockLinked
      ensures var m := FanToManual(old(fan.State()), fan.canOpen, dryRun);
        outcome.ManualRefused? <==> first.fd != -1 && first.flocked && m.status != 0
      ensures var m := FanToManual(old(fan.State()), fan.canOpen, dryRun);
        outcome.ManualRefused? ==> fan.State() == m.state && closedFds == old(closedFds) + [first.fd]
      ensures var m := FanToManual(old(fan.State()), fan.canOpen, dryRun);
        var r := LoopRun(c, dryRun, fan.canOpen, LoopState(InitialLevel, m.state), snapshots);
        outcome.Stopped? ==>
          && outcome == Stopped(EffectiveInterval(c.interval), r.level)
          && fan.State() == FanToAuto(r.fan, fan.canOpen, dryRun).state
          && closedFds == old(closedFds) + [first.fd] +
               (if !c.foreground && relock.fd != -1 then [relock.fd] else [])
    {
      var locked := GetLock(first);
      if locked == 0 {
        var manual := fan.ToManual(dryRun);
        if manual == 0 {
          if !c.foreground {
            RemoveLock();
            var ignored := GetLock(relock);
          }
          var interval := EffectiveInterval(c.interval);
          var level := MainLoop(c, snapshots);
          SignalQuit();
          return Stopped(interval, level);
        }
        RemoveLock();
        return ManualRefused;
      }
      return LockBusy;
    }
  }
}
