# p53-fan in Dafny

A model of the core of p53-fan, a small daemon that drives the fan of a
ThinkPad P53 laptop. It polls the kernel's hwmon sensor tree under
`/sys/class/hwmon`, keeps the highest temperature among the sensors its
inclusion policy accepts, maps that temperature to a fan level 0..8
through one of five fixed hysteresis curves, and writes the level to the
thinkpad_acpi control file `/proc/acpi/ibm/fan`. Level 8 means
"disengaged". On start-up it takes a lock file and switches the fan to
manual control. On a termination request it gives the fan back to the
firmware and releases the lock.

The model has six modules, one file each:

- `wrappers.dfy` (`Wrappers`) holds the `Option` type.
- `cstrings.dfy` (`CStrings`) holds the C library behaviour the core relies
  on. That is a prefix test for `strncmp(a, b, strlen(b))`, a substring test
  for `strstr`, last occurrence for `strrchr`, `atoi` (leading white space,
  optional sign, longest digit run), `%d` printing, and `/` truncating
  toward zero. It also proves that printing then parsing a number gives the
  number back.
- `curve.dfy` (`Curve`, for `src/curve.c`) holds the five literal tables,
  the level selection as a function, and the descending search as a method
  with a loop invariant.
- `hwmon_scan.dfy` (`HwmonScan`, for `src/hwmon_scan.c`) models the file
  system as a map from full path to node: a file with optional contents,
  or a directory with an optional listing. `None` means the open fails, and
  a path missing from the map means `stat` fails. The traversal is written
  as a specification: the readings met, in directory order, folded into a
  running maximum. The `HSContext` class and its methods `DoFile`, `DoDir`,
  `DoEntry` and `Scan` update the context in place, and each is proved equal
  to that specification.
- `fan.dfy` (`Fan`, for `src/fan.c`) models the control file as the list of
  lines it has received and the number of opens tried. An oracle
  `canOpen(k)` says whether the k-th open succeeds. `FanDevice` is the class
  whose methods append to that log.
- `control.dfy` (`Control`, for `src/main.c`) covers curve-name parsing, the
  pid parse of `--stop`, one loop cycle, and the loop over a finite sequence
  of sensor snapshots. `FanDaemon` holds the lock descriptor, the lock file's
  existence and the descriptors closed. Its `Run` method follows the
  start-up gating: lock, then manual mode, then the loop, then automatic
  mode, then release of the lock.

Behaviour of the code worth knowing:

- A missing sensor root and a scan with no matching sensor both make
  `hwmon_scan` return -1. The caller cannot tell them apart, and in both
  cases it skips the cycle.
- The curves are not unbounded at either end. Each runs from -273 up to 255,
  excluding 255. A maximum of 255 or more matches no band, and the old
  level is kept (`Curve.HotSensorKeepsLevel`).
- `fan_set_level` does not check the level. Any integer other than 8 is
  written as `level N`.
- Level 8 is written as `level disengaged`.

## Model

| member | source | states |
|---|---|---|
| Curve.Table | src/curve.c:104-115 | each curve's table has 9 bands; the first starts at -273 and the last ends at 255; every band lies in [-273, 255); each band starts no higher than the previous one ends |
| Curve.ChainedCovers | src/curve.c:25-30 | a table whose bands are chained covers every temperature from its first floor up to its last ceiling |
| Curve.TableCovers | src/curve.c:32-95 | for every curve, every temperature in [-273, 255) lies in some band, so the "not in any range" path cannot be reached from there |
| Curve.TableExcludes | src/curve.c:32-95 | no band of any curve contains a temperature below -273 or at or above 255 |
| Curve.CurveNum.Number | src/curve.h:12-19 | the enumerators are numbered 0..4 |
| Curve.Name | src/curve.c:121-132 | every curve's name is one of the five names |
| Curve.NamesDistinct | src/curve.c:121-132 | two curves have the same name exactly when they are the same curve, and names are listed in enumerator order |
| Curve.HighestMatch | src/curve.c:162-172 | the downward search returns the highest index below n whose band holds the temperature, or reports that none does |
| Curve.SelectLevel | src/curve.c:144-176 | an old level outside 0..8 is returned unchanged; otherwise the result is in 0..8; a temperature in the old level's band keeps the old level; otherwise the highest matching band wins; with no matching band the old level is kept |
| Curve.GetLevel | src/curve.c:144-176 | the descending loop with early returns computes exactly `SelectLevel` |
| Curve.TieBreakFavoursHigher | src/curve.c:139-142 | when the old band misses and two overlapping bands hold the temperature, the chosen level is at least the higher one |
| Curve.SelectLevelFromFloor | src/curve.c:154-160 | level 0 stays 0 for any temperature in its band |
| Curve.MediumScenarios | src/curve.c:58-69 | on the medium curve: 58 keeps level 3; 80 from 3 gives 8; -10 from 8 gives 0; 74 gives 7 from every level other than 6 and 7 |
| Curve.HotSensorKeepsLevel | src/curve.c:174-175 | a maximum of 255 or more keeps the old level |
| CStrings.LastIndexOf | src/hwmon_scan.c:114 | `strrchr`: the index holds the character and no later index does; absent exactly when the character does not occur |
| CStrings.CDiv | src/hwmon_scan.c:140 | C's `/` by a positive divisor: the remainder has the sign of the dividend and is smaller than the divisor |
| CStrings.AtoiShape | src/hwmon_scan.c:140 | `atoi`: a negative result needs a minus sign once leading white space is skipped; text that does not then start with a sign or a digit gives 0 |
| CStrings.AtoiOfDecimal | src/main.c:148 | `atoi` reads back any number printed with `%d`, when the text after it does not start with a digit |
| CStrings.IntToDecimalInjective | src/main.c:49 | distinct numbers print differently with `%d` |
| CStrings.DecimalLength | src/main.c:142-144 | a number below 10^k prints in at most k digits |
| HwmonScan.ReadPseudoFile | src/hwmon_scan.c:66-90 | a read succeeds exactly when the path is a file that opens and holds at least one byte; the text is the contents, or the contents less one trailing line feed |
| HwmonScan.PseudoFileRoundTrip | src/hwmon_scan.c:66-90 | reading a file that holds a line gives the line without its line feed; a non-empty value without a line feed reads back whole |
| HwmonScan.PseudoFileFailures | src/hwmon_scan.c:69-89 | a missing path, a directory, an unreadable file or an empty file fails to read |
| HwmonScan.ShouldInclude | src/hwmon_scan.c:34-56 | a sensor is included exactly when it is iwlwifi (Wi-Fi filter off), coretemp, thinkpad labelled CPU or GPU, nvme labelled Composite, or drivetemp (drivetemp filter off); each test is a prefix match |
| HwmonScan.FiltersOnlyExclude | src/hwmon_scan.c:38-54 | a sensor included under some filter setting is included with both filters off; a sensor a filter excludes is iwlwifi under the Wi-Fi filter or drivetemp under the drivetemp filter |
| HwmonScan.IsTempInput | src/hwmon_scan.c:108-110 | a path passing both `strstr` tests contains a `/` and an `_` |
| HwmonScan.LabelPath | src/hwmon_scan.c:112-117 | a label path exists exactly when the path has an underscore, and it is the path up to its last underscore followed by `_label` |
| HwmonScan.TempInputHasLabelPath | src/hwmon_scan.c:108-117 | every path containing `/temp` and `_input` has a label path |
| HwmonScan.LabelPathOfInput | src/hwmon_scan.c:113-117 | the label of `S_input` is `S_label` |
| HwmonScan.LabelOf | src/hwmon_scan.c:112-129 | a readable label file gives its text as the label; when there is no label path or the label file cannot be read, the label is empty |
| HwmonScan.DriverName | src/hwmon_scan.c:183-189 | a readable `name` file gives its text as the driver name; a directory whose `name` file cannot be read gets `?` |
| HwmonScan.Degrees | src/hwmon_scan.c:140 | `atoi(s) / 1000` truncated toward zero: a non-negative value gives d with 1000d <= value < 1000d + 1000, a negative one d with 1000d - 1000 < value <= 1000d |
| HwmonScan.InputTemp | src/hwmon_scan.c:137-140 | a temperature is present exactly when the input file can be read, and it is that text converted to whole degrees |
| HwmonScan.DegreesOfPrinted | src/hwmon_scan.c:140 | a millidegree value printed as decimal is read as that value divided by 1000, truncated toward zero (-1500 gives -1, 45999 gives 45) |
| HwmonScan.InputTempOfPrinted | src/hwmon_scan.c:137-140 | an input file holding a value printed as `%d` and a line feed gives that value divided by 1000, truncated toward zero |
| HwmonScan.FileHitsShape | src/hwmon_scan.c:106-158 | a file yields one reading exactly when its path holds `/temp` and `_input` and the sensor is included; the reading carries the driver, the label text or "", the path, and the temperature when the file can be read |
| HwmonScan.MissingLabelStillIncluded | src/hwmon_scan.c:130-132 | a missing label file does not stop a coretemp input from being counted, with an empty label |
| HwmonScan.Absorb | src/hwmon_scan.c:134-151 | one included reading makes the poll valid; the maximum never falls, is at least the reading's temperature when it has one, and changes only to that temperature; driver, label and path change exactly when the maximum does, to the reading's |
| HwmonScan.AbsorbAllValid | src/hwmon_scan.c:134 | after the fold the context is valid exactly when it was already valid or some reading was met |
| HwmonScan.AbsorbAllMax | src/hwmon_scan.c:143-151 | the fold's maximum is at least the start value and every reading's temperature, and equals one of them |
| HwmonScan.AbsorbAllProvenance | src/hwmon_scan.c:143-151 | when the maximum rose, driver, label and path come from the first reading that reached it; otherwise they are unchanged |
| HwmonScan.ScanOutcome | src/hwmon_scan.c:242-255 | a scan succeeds exactly when some included reading was met (none can be when the root does not open); the maximum is at least -273, bounds every readable included reading, and is -273 or one of them |
| HwmonScan.DirHitsReachable | src/hwmon_scan.c:177-231 | every reading met is a file under a non-hidden name directly in the directory, or, from the root only, in one of its non-hidden sub-directories, never deeper; it is an included temperature input carrying the driver name of the directory holding it, its label and its converted temperature |
| HwmonScan.FileInputMet | src/hwmon_scan.c:194-214 | every included temperature input directly inside an opened directory is met, with that directory's driver name, its label and its converted temperature |
| HwmonScan.SubdirInputMet | src/hwmon_scan.c:206-210 | from the root, an included input one level down is met too, with its own directory's driver name, its label and its converted temperature |
| HwmonScan.MetReadingBelowMax | src/hwmon_scan.c:134-151 | a reading met by the scan makes it succeed, and its temperature, when readable, is at most the scan maximum |
| HwmonScan.RootInputBelowMax | src/hwmon_scan.c:140-151 | an included input directly under the root that reads as t degrees makes the scan succeed with a maximum of at least t |
| HwmonScan.SubdirInputBelowMax | src/hwmon_scan.c:140-151 | the same for an included input in a non-hidden sub-directory of the root |
| HwmonScan.ScanMaxFromInput | src/hwmon_scan.c:140-151 | the scan maximum is -273 or the converted temperature of an included input in the root or one level below it |
| HwmonScan.RootMissingFails | src/hwmon_scan.c:223-229 | a missing root makes the scan fail and leaves the reset values |
| HwmonScan.HSContext.DoFile | src/hwmon_scan.c:106-158 | the context after `do_file` is the old context with that file's readings folded in; the filters are unchanged |
| HwmonScan.HSContext.IncludeReading | src/hwmon_scan.c:132-153 | an included reading marks the poll valid and replaces maximum, driver, label and path only when its temperature is strictly higher |
| HwmonScan.HSContext.DoDir | src/hwmon_scan.c:177-231 | the context after `do_dir` is the old one with the directory's readings folded in, in listing order; -1 exactly when the top-level directory cannot be opened |
| HwmonScan.HSContext.DoEntry | src/hwmon_scan.c:197-217 | one directory entry folds that entry's readings into the context |
| HwmonScan.HSContext.Scan | src/hwmon_scan.c:242-255 | the context is reset and then holds the scan's result; 0 exactly when the scan succeeded |
| Fan.LevelCommand | src/fan.c:58-69 | every command starts with `level `, and it is `level disengaged` exactly for level 8 |
| Fan.LevelCommandReadsBack | src/fan.c:66 | for levels other than 8, the number after `level ` reads back as the level |
| Fan.LevelCommandInjective | src/fan.c:58-69 | different levels never produce the same command |
| Fan.NativeCommand | src/fan.c:66 | levels 0..7 become `level` followed by a space and one digit |
| Fan.FanWrite | src/fan.c:25-50 | under dry run nothing happens and 0 is returned; otherwise one open is tried and the text plus a line feed is received exactly when it succeeds; the result is 0 exactly then, and -1 otherwise |
| Fan.FanSetLevel | src/fan.c:58-69 | under dry run nothing changes; otherwise one open is tried and, when it succeeds, the level's command is received; the status is discarded |
| Fan.FanToAuto | src/fan.c:75-86 | `level auto` is sent first and `enable` only when that succeeded; the result is 0 exactly when no open failed; dry run changes nothing |
| Fan.FanToManual | src/fan.c:94-108 | `disable` is sent first and `level 3` only when that succeeded; the result is 0 exactly when no open failed; dry run changes nothing |
| Fan.ManualEndsAtLevelThree | src/fan.c:99-102 | the level set by the manual switch is the command of level 3, the level the loop starts from |
| Fan.BitOr | src/fan.c:79-80 | `ret \|= fan_write(...)` is 0 exactly when both statuses are 0 |
| Fan.FanDevice.Write | src/fan.c:25-50 | the log and open count change as `FanWrite` says, and the same status is returned |
| Fan.FanDevice.SetLevel | src/fan.c:58-69 | the log changes as `FanSetLevel` says |
| Fan.FanDevice.ToAuto | src/fan.c:75-86 | the log and status are those of `FanToAuto` |
| Fan.FanDevice.ToManual | src/fan.c:94-108 | the log and status are those of `FanToManual` |
| Control.CurveFromName | src/main.c:119-130 | exactly the five curve names are accepted, each giving the curve of that name; any other name is refused |
| Control.CurveNameRoundTrip | src/main.c:119-130 | parsing a curve's name gives the curve, and an accepted name is that curve's name |
| Control.EffectiveInterval | src/main.c:273 | the interval is positive: a positive interval is kept, and any other becomes 5 |
| Control.StopTarget | src/main.c:137-161 | a readable lock file of 2..31 bytes whose contents, less one trailing line feed, `atoi` to a positive number gives that number as the pid; any other lock file, or none, gives no pid |
| Control.StopFindsLockOwner | src/main.c:39-57 | the line `get_lock` writes for any positive pid a 32-bit C `int` holds is parsed back by `--stop` into that pid |
| Control.StopRejectsBadLength | src/main.c:143-144 | a lock file of 0, 1, or 32 or more bytes gives no pid |
| Control.LockLine | src/main.c:47-50 | the pid line ends in a line feed after at least one character; for a non-negative pid the rest is digits, for a negative one a minus sign and digits |
| Control.CycleStep | src/main.c:98-108 | a failed scan leaves the level and the fan alone; a successful one selects the next level from the stored level and the maximum, and writes it even when unchanged; dry run never touches the fan |
| Control.LoopLevelInRange | src/main.c:94-108 | starting from a level in 0..8, the level stays in 0..8 over any number of cycles |
| Control.LoopWithoutSensors | src/main.c:98 | when every scan fails, level and fan stay as they were |
| Control.LoopDryRun | src/main.c:106 | under dry run the loop never changes the fan |
| Control.FanDaemon.GetLock | src/main.c:39-57 | the descriptor is stored even when `flock` fails; the lock file exists once the open succeeded; 0 exactly when both the open and `flock` succeeded |
| Control.FanDaemon.RemoveLock | src/main.c:65-70 | the descriptor is closed only if there is one, is then forgotten, and the lock file is gone |
| Control.FanDaemon.SignalQuit | src/main.c:78-84 | the fan is handed back as `FanToAuto` says, then the lock is released |
| Control.FanDaemon.Cycle | src/main.c:98-108 | level and fan change as `CycleStep` says, and the scan context holds that poll's result |
| Control.FanDaemon.MainLoop | src/main.c:92-111 | starting from level 3, level and fan after the snapshots are those of the cycle-by-cycle run |
| Control.FanDaemon.Run | src/main.c:257-282 | the fan is untouched when the lock is busy; manual mode is tried only under the lock; the loop runs only after manual mode succeeded; the lock is released on every path that took it; after the loop the fan is back in automatic mode |

## Left out

- Logging (`mylog_*`) is left out. Nothing in the core depends on it.
- Real I/O (`open`, `read`, `write`, `opendir`, `readdir`, `stat`) is left
  out, replaced by the file-system map and the fan's open oracle.
- `write` results go unmodelled. They are ignored by `fan_write` and
  `get_lock`, so a successful open counts as the command received.
- Signals are left out: their installation, their asynchronous delivery,
  and `exit`. The loop runs over a finite sequence of sensor snapshots, and
  then the termination request is handled by `signal_quit`. A signal that
  arrives before the handlers are installed is not modelled.
- `sleep(interval)` between cycles is left out. `Run` computes the
  effective interval and returns it.
- `daemon(0, 0)` and the switch to syslog are left out, apart from the
  release and retaking of the lock around them.
- Command-line parsing with `getopt_long`, `--help` and `--version` are left
  out. `Config` is the parsed result. `curve_from_name` reports an unknown
  name as `None` instead of calling `exit`.
- The lock file's contents are not part of `FanDaemon`'s state. `LockLine`
  and `StopTarget` relate what `get_lock` writes to what `do_stop` reads,
  but contents left from an earlier run are not modelled. Sending `SIGTERM`
  to the pid is not modelled either.
- HwmonScan.ReadPseudoFile does not model `read` stopping at the buffer
  size (32 bytes for labels and names, 30 for temperatures), nor the
  out-of-bounds `result[n] = 0` when a file fills the buffer. File contents
  are taken to be NUL-free, so `strlen` equals the length read.
- HwmonScan.HSContext.DoFile does not model the copies into the fixed
  `driver[32]`, `label[32]` and `path[256]` buffers being cut short at their
  sizes. The full strings are kept.
- CStrings.Atoi and Fan.LevelCommand use unbounded integers. Overflow in
  `atoi` and the 32-byte `snprintf` buffer can only matter for values far
  outside any temperature, level or pid.
- The loop's directory traversal takes `stat` to succeed exactly for paths
  in the map. Symbolic links are represented by the nodes they resolve to.
- The fall-through after `main_loop` in `main` (calling `fan_to_auto`, then
  `remove_lock`) is not modelled separately. It leaves the same final state
  as `signal_quit`, which `Run` uses.
