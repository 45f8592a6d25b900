/** The sensor aggregator (src/hwmon_scan.c, src/hwmon_scan.h): a depth-capped
    walk of the hwmon tree that keeps the highest included temperature and
    where it came from.

    The file system is a map from full path to node; `stat` succeeds exactly
    on the paths in the map. A file either reads back its contents or cannot
    be read; a directory either lists its entries or cannot be opened. */
module HwmonScan {
  import opened Wrappers
  import opened CStrings

  const HwmonRoot := "/sys/class/hwmon"
  /** The starting maximum of every scan: absolute zero. */
  const AbsoluteZero := -273
  /** What the provenance fields hold before any reading is recorded, and the
      driver name used for a directory without a readable `name` file. */
  const Unknown := "?"

  datatype Node =
    | File(contents: Option<string>)
    | Dir(listing: Option<seq<string>>)

  type FileSystem = map<string, Node>

  /** The two exclusion switches of the command line. */
  datatype Filters = Filters(nowifi: bool, nodrivetemp: bool)

  /** `read_pseudo_file`: a file that opens and yields at least one byte gives
      its contents with one trailing line feed removed; anything else
      (missing, unreadable, empty, a directory) is a failure. */
  function ReadPseudoFile(fs: FileSystem, path: string): (r: Option<string>)
    ensures r.Some? <==> path in fs && fs[path].File? && fs[path].contents.Some? && fs[path].contents.value != []
    ensures r.Some? ==> var c := fs[path].contents.value;
      r.value == c || (r.value + "\n" == c)
  {
    if path in fs && fs[path].File? && fs[path].contents.Some? && fs[path].contents.value != [] then
      var c := fs[path].contents.value;
      if c[|c| - 1] == '\n' then
        assert c[..|c| - 1] + "\n" == c;
        Some(c[..|c| - 1])
      else Some(c)
    else None
  }

  /** What the kernel writes as a line reads back without its line feed; a
      non-empty value without one reads back whole; only one is removed. */
  lemma PseudoFileRoundTrip(fs: FileSystem, path: string, text: string)
    ensures path in fs && fs[path] == File(Some(text + "\n")) ==> ReadPseudoFile(fs, path) == Some(text)
    ensures path in fs && fs[path] == File(Some(text)) && text != [] && text[|text| - 1] != '\n' ==>
      ReadPseudoFile(fs, path) == Some(text)
  {
    assert (text + "\n")[..|text|] == text;
  }

  /** Missing files, directories, unreadable and empty files all fail. */
  lemma PseudoFileFailures(fs: FileSystem, path: string)
    requires path !in fs || fs[path].Dir? || fs[path].contents.None? || fs[path].contents == Some([])
    ensures ReadPseudoFile(fs, path).None?
  {
  }

  /** `should_include`: which sensors count towards the maximum. */
  function ShouldInclude(driver: string, labelText: string, f: Filters): (included: bool)
    ensures included <==>
      || (StartsWith(driver, "iwlwifi") && !f.nowifi)
      || StartsWith(driver, "coretemp")
      || (StartsWith(driver, "thinkpad") && (StartsWith(labelText, "CPU") || StartsWith(labelText, "GPU")))
      || (StartsWith(driver, "nvme") && StartsWith(labelText, "Composite"))
      || (StartsWith(driver, "drivetemp") && !f.nodrivetemp)
  {
    if !f.nowifi && StartsWith(driver, "iwlwifi") then true
    else if StartsWith(driver, "coretemp") then true
    else if StartsWith(driver, "thinkpad") && (StartsWith(labelText, "CPU") || StartsWith(labelText, "GPU")) then true
    else if StartsWith(driver, "nvme") && StartsWith(labelText, "Composite") then true
    else !f.nodrivetemp && StartsWith(driver, "drivetemp")
  }

  /** The exclusion switches only ever remove sensors, and each removes only
      its own kind. */
  lemma FiltersOnlyExclude(driver: string, labelText: string, f: Filters)
    ensures ShouldInclude(driver, labelText, f) ==> ShouldInclude(driver, labelText, Filters(false, false))
    ensures ShouldInclude(driver, labelText, Filters(false, false)) && !ShouldInclude(driver, labelText, f) ==>
      (f.nowifi && StartsWith(driver, "iwlwifi")) || (f.nodrivetemp && StartsWith(driver, "drivetemp"))
  {
  }

  /** `do_file` looks only at paths containing both "/temp" and "_input". */
  predicate IsTempInput(path: string)
    ensures IsTempInput(path) ==> '/' in path && '_' in path
  {
    if Contains(path, "/temp") && Contains(path, "_input") then
      ContainsFirstChar(path, "/temp");
      ContainsFirstChar(path, "_input");
      true
    else false
  }

  /** The label file: everything from the last '_' replaced by "_label". */
  function LabelPath(path: string): (r: Option<string>)
    ensures r.Some? <==> '_' in path
    ensures r.Some? ==> exists i :: && 0 <= i < |path| && path[i] == '_'
                                   && (forall j :: i < j < |path| ==> path[j] != '_')
                                   && r.value == path[..i] + "_label"
  {
    match LastIndexOf(path, '_')
    case Some(i) => Some(path[..i] + "_label")
    case None => None
  }

  /** Every temperature input has a label path. */
  lemma TempInputHasLabelPath(path: string)
    requires IsTempInput(path)
    ensures LabelPath(path).Some?
  {
  }

  /** The usual case: "..._input" becomes "..._label". */
  lemma {:induction false} LabelPathOfInput(stem: string)
    ensures LabelPath(stem + "_input") == Some(stem + "_label")
  {
    var p := stem + "_input";
    assert p[|stem|] == '_';
    assert LastIndexOf(p, '_') == Some(|stem|);
    assert p[..|stem|] == stem;
  }

  /** The label of a temperature input: the label file's contents, or empty
      when it cannot be read. */
  function LabelOf(fs: FileSystem, path: string): (text: string)
    ensures text != "" ==> LabelPath(path).Some? && ReadPseudoFile(fs, LabelPath(path).value) == Some(text)
    ensures LabelPath(path).Some? && ReadPseudoFile(fs, LabelPath(path).value).Some? ==>
      text == ReadPseudoFile(fs, LabelPath(path).value).value
    ensures LabelPath(path).None? || ReadPseudoFile(fs, LabelPath(path).value).None? ==> text == ""
  {
    match LabelPath(path)
    case Some(lp) => ReadPseudoFile(fs, lp).GetOr("")
    case None => ""
  }

  /** Milli-degrees to whole degrees: `atoi(s) / 1000`, truncating. */
  function Degrees(s: string): (d: int)
    ensures Atoi(s) >= 0 ==> 0 <= d && d * 1000 <= Atoi(s) < d * 1000 + 1000
    ensures Atoi(s) < 0 ==> d <= 0 && d * 1000 - 1000 < Atoi(s) <= d * 1000
  {
    CDiv(Atoi(s), 1000)
  }

  /** A kernel value printed as "%d\n" converts to whole degrees truncated
      toward zero, so -1500 milli-degrees is -1 and not -2. */
  lemma DegreesOfPrinted(milli: int)
    ensures Degrees(IntToDecimal(milli) + "\n") == CDiv(milli, 1000)
    ensures CDiv(-1500, 1000) == -1 && CDiv(45999, 1000) == 45
  {
    AtoiOfDecimal(milli, "\n");
  }

  /** One included temperature input met during a scan; `temp` is absent when
      its input file could not be read. */
  datatype Reading = Reading(driver: string, labelText: string, path: string, temp: Option<int>)

  /** The whole degrees an input file holds, when it can be read. */
  function InputTemp(fs: FileSystem, path: string): (t: Option<int>)
    ensures t.Some? <==> ReadPseudoFile(fs, path).Some?
    ensures t.Some? ==> t.value == Degrees(ReadPseudoFile(fs, path).value)
  {
    match ReadPseudoFile(fs, path)
    case Some(s) => Some(Degrees(s))
    case None => None
  }

  /** An input file holding a kernel value printed as "%d\n" gives that
      value in whole degrees, truncated toward zero. */
  lemma InputTempOfPrinted(fs: FileSystem, path: string, milli: int)
    requires path in fs && fs[path] == File(Some(IntToDecimal(milli) + "\n"))
    ensures InputTemp(fs, path) == Some(CDiv(milli, 1000))
  {
    var text := IntToDecimal(milli);
    PseudoFileRoundTrip(fs, path, text);
    assert ReadPseudoFile(fs, path) == Some(text);
    DegreesOfPrinted(milli);
    assert Degrees(text + "\n") == CDiv(milli, 1000);
    assert Degrees(text) == Degrees(text + "\n") by {
      AtoiOfDecimal(milli, "");
      AtoiOfDecimal(milli, "\n");
      assert text + "" == text;
    }
  }

  /** What `do_file` contributes for one file: nothing, or the one included
      reading it finds. */
  function FileHits(fs: FileSystem, f: Filters, driver: string, path: string): seq<Reading> {
    if IsTempInput(path) && ShouldInclude(driver, LabelOf(fs, path), f) then
      [Reading(driver, LabelOf(fs, path), path, InputTemp(fs, path))]
    else []
  }

  /** A file yields a reading exactly when it is a temperature input whose
      sensor is included; the reading carries the directory's driver name,
      the label (empty when unreadable) and the converted temperature, which
      is absent when the input file cannot be read. */
  lemma FileHitsShape(fs: FileSystem, f: Filters, driver: string, path: string)
    ensures var hits := FileHits(fs, f, driver, path);
      && |hits| <= 1
      && (|hits| == 1 <==> IsTempInput(path) && ShouldInclude(driver, LabelOf(fs, path), f))
      && (|hits| == 1 ==> hits[0].driver == driver && hits[0].path == path && hits[0].labelText == LabelOf(fs, path))
      && (|hits| == 1 ==> (hits[0].temp.Some? <==> ReadPseudoFile(fs, path).Some?))
      && (|hits| == 1 && hits[0].temp.Some? ==> hits[0].temp.value == Degrees(ReadPseudoFile(fs, path).value))
  {
  }

  /** A missing label file does not keep a sensor out: it is judged with an
      empty label. */
  lemma MissingLabelStillIncluded(fs: FileSystem, f: Filters, stem: string)
    requires stem + "_label" !in fs
    requires IsTempInput(stem + "_input")
    ensures var hits := FileHits(fs, f, "coretemp", stem + "_input");
      |hits| == 1 && hits[0].labelText == ""
  {
    LabelPathOfInput(stem);
  }

  /** The directory can be opened with `opendir`. */
  predicate CanOpenDir(fs: FileSystem, path: string) {
    path in fs && fs[path].Dir? && fs[path].listing.Some?
  }

  function Listing(fs: FileSystem, path: string): seq<string> {
    if CanOpenDir(fs, path) then fs[path].listing.value else []
  }

  /** The contents of a directory's `name` file, or "?". */
  function DriverName(fs: FileSystem, dir: string): (name: string)
    ensures ReadPseudoFile(fs, dir + "/name").None? ==> name == Unknown
    ensures name != Unknown ==> ReadPseudoFile(fs, dir + "/name") == Some(name)
    ensures ReadPseudoFile(fs, dir + "/name").Some? ==> name == ReadPseudoFile(fs, dir + "/name").value
  {
    ReadPseudoFile(fs, dir + "/name").GetOr(Unknown)
  }

  /** `readdir` entries that start with '.' are skipped. */
  predicate Hidden(entry: string) {
    |entry| > 0 && entry[0] == '.'
  }

  /** The readings `do_dir(level, dir)` meets, in traversal order. */
  function DirHits(fs: FileSystem, f: Filters, level: nat, dir: string): seq<Reading>
    requires level <= 1
    decreases 1 - level, 2, 0
  {
    if CanOpenDir(fs, dir) then EntriesHits(fs, f, level, dir, DriverName(fs, dir), Listing(fs, dir))
    else []
  }

  /** The readings met while processing `entries` in order. */
  function EntriesHits(fs: FileSystem, f: Filters, level: nat, dir: string, driver: string, entries: seq<string>): seq<Reading>
    requires level <= 1
    decreases 1 - level, 1, |entries|
  {
    if |entries| == 0 then []
    else (EntriesHits(fs, f, level, dir, driver, entries[..|entries| - 1])
      + EntryHits(fs, f, level, dir, driver, entries[|entries| - 1]))
  }

  /** The readings met for one directory entry: a sub-directory is entered
      only from level 0, a file goes to `do_file` with the directory's
      driver name, and an entry that cannot be stat'ed is passed over. */
  function EntryHits(fs: FileSystem, f: Filters, level: nat, dir: string, driver: string, entry: string): seq<Reading>
    requires level <= 1
    decreases 1 - level, 0, 0
  {
    if Hidden(entry) then []
    else
      var path := dir + "/" + entry;
      if path !in fs then []
      else if fs[path].Dir? then (if level < 1 then DirHits(fs, f, level + 1, path) else [])
      else FileHits(fs, f, driver, path)
  }

  /** The running state of a scan: the part of `HSContext` that `do_file`
      updates. */
  datatype ScanState = ScanState(maxTemp: int, driver: string, labelText: string, path: string, valid: bool)

  /** `hwmon_scan`'s reset values. */
  const InitialScan := ScanState(AbsoluteZero, Unknown, Unknown, Unknown, false)

  /** One included reading: the scan becomes valid; a strictly higher
      temperature replaces the maximum and its provenance. */
  function Absorb(s: ScanState, r: Reading): (s': ScanState)
    ensures s'.valid
    ensures s'.maxTemp >= s.maxTemp && (r.temp.Some? ==> s'.maxTemp >= r.temp.value)
    ensures s'.maxTemp == s.maxTemp || Some(s'.maxTemp) == r.temp
    ensures s'.maxTemp != s.maxTemp ==> (s'.driver, s'.labelText, s'.path) == (r.driver, r.labelText, r.path)
    ensures s'.maxTemp == s.maxTemp ==> (s'.driver, s'.labelText, s'.path) == (s.driver, s.labelText, s.path)
  {
    var s' := s.(valid := true);
    if r.temp.Some? && r.temp.value > s.maxTemp then
      s'.(maxTemp := r.temp.value, driver := r.driver, labelText := r.labelText, path := r.path)
    else s'
  }

  /** The state after absorbing `hits` in order. */
  function AbsorbAll(s: ScanState, hits: seq<Reading>): ScanState {
    if |hits| == 0 then s else Absorb(AbsorbAll(s, hits[..|hits| - 1]), hits[|hits| - 1])
  }

  /** Folding in no readings changes nothing. */
  lemma AbsorbAllEmpty(s: ScanState)
    ensures AbsorbAll(s, []) == s
  {
  }

  /** Folding in one reading is absorbing it. */
  lemma AbsorbAllOne(s: ScanState, r: Reading)
    ensures AbsorbAll(s, [r]) == Absorb(s, r)
  {
    assert [r][..0] == [];
  }

  lemma {:induction false} AbsorbAllAppend(s: ScanState, a: seq<Reading>, b: seq<Reading>)
    ensures AbsorbAll(s, a + b) == AbsorbAll(AbsorbAll(s, a), b)
    decreases |b|
  {
    if |b| == 0 {
      assert a + b == a;
    } else {
      var b' := b[..|b| - 1];
      assert (a + b)[..|a + b| - 1] == a + b';
      AbsorbAllAppend(s, a, b');
    }
  }

  /** The scan is valid once any included reading has been met, even one
      whose temperature could not be read. */
  lemma {:induction false} AbsorbAllValid(s: ScanState, hits: seq<Reading>)
    ensures AbsorbAll(s, hits).valid == (s.valid || |hits| > 0)
  {
    if |hits| > 0 {
      AbsorbAllValid(s, hits[..|hits| - 1]);
    }
  }

  /** The maximum never falls, bounds every readable reading, and is either
      the starting value or one of the readings. */
  lemma {:induction false} AbsorbAllMax(s: ScanState, hits: seq<Reading>)
    ensures AbsorbAll(s, hits).maxTemp >= s.maxTemp
    ensures forall k :: 0 <= k < |hits| && hits[k].temp.Some? ==> hits[k].temp.value <= AbsorbAll(s, hits).maxTemp
    ensures AbsorbAll(s, hits).maxTemp == s.maxTemp ||
      exists k :: 0 <= k < |hits| && hits[k].temp == Some(AbsorbAll(s, hits).maxTemp)
  {
    if |hits| > 0 {
      var p := hits[..|hits| - 1];
      AbsorbAllMax(s, p);
      var m := AbsorbAll(s, p).maxTemp;
      var r := AbsorbAll(s, hits).maxTemp;
      assert forall k :: 0 <= k < |p| ==> p[k] == hits[k];
      if r != s.maxTemp && r != hits[|hits| - 1].temp.GetOr(r - 1) {
        assert r == m;
        var k :| 0 <= k < |p| && p[k].temp == Some(m);
        assert hits[k].temp == Some(r);
      }
    }
  }

  /** `k` is the first reading that reaches temperature `m`. */
  predicate FirstReaching(hits: seq<Reading>, k: int, m: int) {
    && 0 <= k < |hits| && hits[k].temp == Some(m)
    && forall j :: 0 <= j < k ==> hits[j].temp.None? || hits[j].temp.value < m
  }

  /** Provenance: the recorded driver, labelText and path are those of the first
      reading that reached the final maximum; when nothing beat the starting
      value they are the starting ones. */
  lemma {:induction false} AbsorbAllProvenance(s: ScanState, hits: seq<Reading>)
    ensures var r := AbsorbAll(s, hits);
      r.maxTemp == s.maxTemp ==> (r.driver, r.labelText, r.path) == (s.driver, s.labelText, s.path)
    ensures var r := AbsorbAll(s, hits);
      r.maxTemp != s.maxTemp ==> exists k :: (FirstReaching(hits, k, r.maxTemp) &&
        (r.driver, r.labelText, r.path) == (hits[k].driver, hits[k].labelText, hits[k].path))
  {
    if |hits| > 0 {
      var p := hits[..|hits| - 1];
      var last := hits[|hits| - 1];
      AbsorbAllProvenance(s, p);
      AbsorbAllMax(s, p);
      var q := AbsorbAll(s, p);
      var r := AbsorbAll(s, hits);
      assert forall k :: 0 <= k < |p| ==> p[k] == hits[k];
      if last.temp.Some? && last.temp.value > q.maxTemp {
        assert FirstReaching(hits, |hits| - 1, r.maxTemp);
      } else if r.maxTemp != s.maxTemp {
        var k :| FirstReaching(p, k, q.maxTemp) && (q.driver, q.labelText, q.path) == (p[k].driver, p[k].labelText, p[k].path);
        assert FirstReaching(hits, k, r.maxTemp);
      }
    }
  }

  /** The outcome of one whole scan. */
  function ScanResult(fs: FileSystem, f: Filters): ScanState {
    AbsorbAll(InitialScan, DirHits(fs, f, 0, HwmonRoot))
  }

  /** `hwmon_scan` returns 0: the root opened and some sensor matched. */
  predicate ScanSucceeded(fs: FileSystem, f: Filters) {
    CanOpenDir(fs, HwmonRoot) && ScanResult(fs, f).valid
  }

  /** A whole scan: success means some included reading exists; the maximum is
      -273 or higher, bounds every readable included reading, and is -273 or
      one of them. */
  lemma ScanOutcome(fs: FileSystem, f: Filters)
    ensures var hits := DirHits(fs, f, 0, HwmonRoot);
      ScanSucceeded(fs, f) <==> |hits| > 0
    ensures var hits := DirHits(fs, f, 0, HwmonRoot); var r := ScanResult(fs, f);
      && r.maxTemp >= AbsoluteZero
      && (forall k :: 0 <= k < |hits| && hits[k].temp.Some? ==> hits[k].temp.value <= r.maxTemp)
      && (r.maxTemp == AbsoluteZero || exists k :: 0 <= k < |hits| && hits[k].temp == Some(r.maxTemp))
  {
    var hits := DirHits(fs, f, 0, HwmonRoot);
    AbsorbAllValid(InitialScan, hits);
    AbsorbAllMax(InitialScan, hits);
  }

  /** `h` comes from a non-hidden file directly inside `dir`: an included
      temperature input, attributed to `dir`'s driver name, carrying its
      label and its converted temperature. */
  ghost predicate FileIn(fs: FileSystem, f: Filters, dir: string, h: Reading) {
    && (exists e :: e in Listing(fs, dir) && !Hidden(e) && h.path == dir + "/" + e)
    && h.path in fs && fs[h.path].File?
    && h.driver == DriverName(fs, dir)
    && IsTempInput(h.path)
    && h.labelText == LabelOf(fs, h.path)
    && ShouldInclude(h.driver, h.labelText, f)
    && h.temp == InputTemp(fs, h.path)
  }

  /** Where a reading met by `do_dir(level, dir)` can come from: a file in
      `dir`, or, from level 0 only, a file in a non-hidden sub-directory. */
  ghost predicate Reachable(fs: FileSystem, f: Filters, level: nat, dir: string, h: Reading) {
    || FileIn(fs, f, dir, h)
    || (level == 0 && exists e :: e in Listing(fs, dir) && !Hidden(e) && FileIn(fs, f, dir + "/" + e, h))
  }

  lemma {:induction false} EntriesHitsReachable(fs: FileSystem, f: Filters, level: nat, dir: string, entries: seq<string>)
    requires level <= 1
    requires forall e :: e in entries ==> e in Listing(fs, dir)
    ensures forall h :: h in EntriesHits(fs, f, level, dir, DriverName(fs, dir), entries) ==> Reachable(fs, f, level, dir, h)
    decreases 1 - level, 0, |entries|
  {
    if |entries| > 0 {
      var driver := DriverName(fs, dir);
      var init := entries[..|entries| - 1];
      var e := entries[|entries| - 1];
      assert forall x :: x in init ==> x in entries;
      EntriesHitsReachable(fs, f, level, dir, init);
      assert e in Listing(fs, dir);
      var path := dir + "/" + e;
      if !Hidden(e) && path in fs {
        if fs[path].Dir? {
          if level < 1 {
            DirHitsReachable(fs, f, level + 1, path);
            forall h | h in DirHits(fs, f, level + 1, path)
              ensures Reachable(fs, f, level, dir, h)
            {
              assert FileIn(fs, f, path, h);
            }
          }
        } else {
          forall h | h in FileHits(fs, f, driver, path)
            ensures Reachable(fs, f, level, dir, h)
          {
            FileHitsShape(fs, f, driver, path);
            assert FileIn(fs, f, dir, h);
          }
        }
      }
    }
  }

  /** Traversal shape: below level 1 no sub-directory is entered, hidden
      entries are skipped, and files are attributed to their own directory. */
  lemma DirHitsReachable(fs: FileSystem, f: Filters, level: nat, dir: string)
    requires level <= 1
    ensures forall h :: h in DirHits(fs, f, level, dir) ==> Reachable(fs, f, level, dir, h)
    decreases 1 - level, 1, 0
  {
    if CanOpenDir(fs, dir) {
      EntriesHitsReachable(fs, f, level, dir, Listing(fs, dir));
    }
  }

  /** Meeting a reading for one entry means meeting it in the directory. */
  lemma {:induction false} EntriesHitsInclude(fs: FileSystem, f: Filters, level: nat, dir: string, driver: string,
                                              entries: seq<string>, k: nat, h: Reading)
    requires level <= 1 && k < |entries|
    requires h in EntryHits(fs, f, level, dir, driver, entries[k])
    ensures h in EntriesHits(fs, f, level, dir, driver, entries)
    decreases |entries|
  {
    var init := entries[..|entries| - 1];
    if k < |entries| - 1 {
      assert init[k] == entries[k];
      EntriesHitsInclude(fs, f, level, dir, driver, init, k, h);
    }
  }

  /** Completeness: every included temperature input directly inside an
      opened directory is met, attributed to that directory's driver name. */
  lemma FileInputMet(fs: FileSystem, f: Filters, level: nat, dir: string, e: string)
    requires level <= 1
    requires e in Listing(fs, dir) && !Hidden(e)
    requires var p := dir + "/" + e;
      p in fs && fs[p].File? && IsTempInput(p) && ShouldInclude(DriverName(fs, dir), LabelOf(fs, p), f)
    ensures exists h :: && h in DirHits(fs, f, level, dir) && h.path == dir + "/" + e && h.driver == DriverName(fs, dir)
                        && h.labelText == LabelOf(fs, dir + "/" + e) && h.temp == InputTemp(fs, dir + "/" + e)
  {
    var entries := Listing(fs, dir);
    var k :| 0 <= k < |entries| && entries[k] == e;
    var p := dir + "/" + e;
    var hits := FileHits(fs, f, DriverName(fs, dir), p);
    FileHitsShape(fs, f, DriverName(fs, dir), p);
    assert hits[0] in EntryHits(fs, f, level, dir, DriverName(fs, dir), entries[k]);
    EntriesHitsInclude(fs, f, level, dir, DriverName(fs, dir), entries, k, hits[0]);
  }

  /** Completeness one level down: from the root, included temperature
      inputs of every non-hidden sub-directory are met too. */
  lemma SubdirInputMet(fs: FileSystem, f: Filters, dir: string, e: string, e2: string)
    requires e in Listing(fs, dir) && !Hidden(e)
    requires var sub := dir + "/" + e; var p := sub + "/" + e2;
      && e2 in Listing(fs, sub) && !Hidden(e2)
      && p in fs && fs[p].File? && IsTempInput(p) && ShouldInclude(DriverName(fs, sub), LabelOf(fs, p), f)
    ensures var p := dir + "/" + e + "/" + e2;
      exists h :: && h in DirHits(fs, f, 0, dir) && h.path == p && h.driver == DriverName(fs, dir + "/" + e)
                  && h.labelText == LabelOf(fs, p) && h.temp == InputTemp(fs, p)
  {
    var sub := dir + "/" + e;
    var p := sub + "/" + e2;
    FileInputMet(fs, f, 1, sub, e2);
    var h :| && h in DirHits(fs, f, 1, sub) && h.path == p && h.driver == DriverName(fs, sub)
             && h.labelText == LabelOf(fs, p) && h.temp == InputTemp(fs, p);
    var entries := Listing(fs, dir);
    var k :| 0 <= k < |entries| && entries[k] == e;
    assert h in EntryHits(fs, f, 0, dir, DriverName(fs, dir), entries[k]);
    EntriesHitsInclude(fs, f, 0, dir, DriverName(fs, dir), entries, k, h);
  }

  /** End to end: an included temperature input directly under the root
      whose file reads as `t` degrees makes the scan succeed with a maximum
      of at least `t`. */
  lemma RootInputBelowMax(fs: FileSystem, f: Filters, e: string, t: int)
    requires e in Listing(fs, HwmonRoot) && !Hidden(e)
    requires var p := HwmonRoot + "/" + e;
      && p in fs && fs[p].File? && IsTempInput(p)
      && ShouldInclude(DriverName(fs, HwmonRoot), LabelOf(fs, p), f) && InputTemp(fs, p) == Some(t)
    ensures ScanSucceeded(fs, f) && t <= ScanResult(fs, f).maxTemp
  {
    FileInputMet(fs, f, 0, HwmonRoot, e);
    var hits := DirHits(fs, f, 0, HwmonRoot);
    var h :| h in hits && h.temp == InputTemp(fs, HwmonRoot + "/" + e);
    MetReadingBelowMax(fs, f, h);
  }

  /** End to end, one level down: the same for an included input inside a
      non-hidden sub-directory of the root. */
  lemma SubdirInputBelowMax(fs: FileSystem, f: Filters, e: string, e2: string, t: int)
    requires e in Listing(fs, HwmonRoot) && !Hidden(e)
    requires var sub := HwmonRoot + "/" + e; var p := sub + "/" + e2;
      && e2 in Listing(fs, sub) && !Hidden(e2)
      && p in fs && fs[p].File? && IsTempInput(p)
      && ShouldInclude(DriverName(fs, sub), LabelOf(fs, p), f) && InputTemp(fs, p) == Some(t)
    ensures ScanSucceeded(fs, f) && t <= ScanResult(fs, f).maxTemp
  {
    SubdirInputMet(fs, f, HwmonRoot, e, e2);
    var hits := DirHits(fs, f, 0, HwmonRoot);
    var h :| h in hits && h.temp == InputTemp(fs, HwmonRoot + "/" + e + "/" + e2);
    MetReadingBelowMax(fs, f, h);
  }

  /** A reading met by the scan makes it succeed and is bounded by its
      maximum. */
  lemma MetReadingBelowMax(fs: FileSystem, f: Filters, h: Reading)
    requires h in DirHits(fs, f, 0, HwmonRoot)
    ensures ScanSucceeded(fs, f)
    ensures h.temp.Some? ==> h.temp.value <= ScanResult(fs, f).maxTemp
  {
    var hits := DirHits(fs, f, 0, HwmonRoot);
    ScanOutcome(fs, f);
    var k :| 0 <= k < |hits| && hits[k] == h;
  }

  /** The maximum a scan reports is -273 or the converted temperature of an
      included input in the root or one level below it. */
  lemma ScanMaxFromInput(fs: FileSystem, f: Filters)
    ensures var m := ScanResult(fs, f).maxTemp;
      m == AbsoluteZero || exists h :: Reachable(fs, f, 0, HwmonRoot, h) && h.temp == Some(m)
  {
    var hits := DirHits(fs, f, 0, HwmonRoot);
    ScanOutcome(fs, f);
    DirHitsReachable(fs, f, 0, HwmonRoot);
    var m := ScanResult(fs, f).maxTemp;
    if m != AbsoluteZero {
      var k :| 0 <= k < |hits| && hits[k].temp == Some(m);
      assert Reachable(fs, f, 0, HwmonRoot, hits[k]);
    }
  }

  /** A missing root is a failed scan that leaves the reset values. */
  lemma RootMissingFails(fs: FileSystem, f: Filters)
    requires !CanOpenDir(fs, HwmonRoot)
    ensures !ScanSucceeded(fs, f) && ScanResult(fs, f) == InitialScan
  {
  }

  /** The mutable scan context of src/hwmon_scan.h. */
  class HSContext {
    var maxTemp: int
    var driver: string
    var labelText: string
    var path: string
    var nowifi: bool
    var nodrivetemp: bool
    var valid: bool

    constructor ()
      ensures State() == InitialScan && !nowifi && !nodrivetemp
    {
      maxTemp, driver, labelText, path := AbsoluteZero, Unknown, Unknown, Unknown;
      nowifi, nodrivetemp, valid := false, false, false;
    }

    function State(): ScanState
      reads this
    {
      ScanState(maxTemp, driver, labelText, path, valid)
    }

    function Filter(): Filters
      reads this
    {
      Filters(nowifi, nodrivetemp)
    }

    /** `do_file`. */
    method DoFile(currentDriver: string, filePath: string, fs: FileSystem)
      modifies this
      ensures Filter() == old(Filter())
      ensures State() == AbsorbAll(old(State()), FileHits(fs, Filter(), currentDriver, filePath))
    {
      AbsorbAllEmpty(old(State()));
      if Contains(filePath, "/temp") && Contains(filePath, "_input") {
        var p := LastIndexOf(filePath, '_');
        if p.Some? {
          var labelFile := filePath[..p.value] + "_label";
          var currentLabel := ReadPseudoFile(fs, labelFile).GetOr("");
          assert currentLabel == LabelOf(fs, filePath);
          if ShouldInclude(currentDriver, currentLabel, Filter()) {
            ghost var hits := FileHits(fs, Filter(), currentDriver, filePath);
            FileHitsShape(fs, Filter(), currentDriver, filePath);
            IncludeReading(currentDriver, currentLabel, filePath, InputTemp(fs, filePath));
            AbsorbAllOne(old(State()), hits[0]);
            assert hits == [hits[0]];
          }
        } else {
          TempInputHasLabelPath(filePath);
        }
      }
    }

    /** The included branch of `do_file`: the poll becomes valid, and the
        input file's temperature, when it could be read, is kept with its
        provenance if it is a new maximum. */
    method IncludeReading(currentDriver: string, currentLabel: string, filePath: string, temp: Option<int>)
      modifies this
      ensures Filter() == old(Filter())
      ensures State() == Absorb(old(State()), Reading(currentDriver, currentLabel, filePath, temp))
    {
      valid := true;
      if temp.Some? && temp.value > maxTemp {
        driver := currentDriver;
        labelText := currentLabel;
        path := filePath;
        maxTemp := temp.value;
      }
    }

    /** `do_dir`: returns -1 only when the top-level directory cannot be
        opened. */
    method DoDir(level: nat, fullPath: string, fs: FileSystem) returns (ret: int)
      requires level <= 1
      modifies this
      decreases 1 - level, 1
      ensures ret == (if level == 0 && !CanOpenDir(fs, fullPath) then -1 else 0)
      ensures Filter() == old(Filter())
      ensures State() == AbsorbAll(old(State()), DirHits(fs, Filter(), level, fullPath))
    {
      ret := 0;
      var currentName := ReadPseudoFile(fs, fullPath + "/name").GetOr(Unknown);
      if CanOpenDir(fs, fullPath) {
        var entries := fs[fullPath].listing.value;
        var i := 0;
        while i < |entries|
          invariant 0 <= i <= |entries|
          invariant Filter() == old(Filter())
          invariant State() == AbsorbAll(old(State()), EntriesHits(fs, Filter(), level, fullPath, currentName, entries[..i]))
        {
          ghost var done := EntriesHits(fs, Filter(), level, fullPath, currentName, entries[..i]);
          DoEntry(level, fullPath, currentName, entries[i], fs);
          assert entries[..i + 1][..i] == entries[..i];
          AbsorbAllAppend(old(State()), done, EntryHits(fs, Filter(), level, fullPath, currentName, entries[i]));
          i := i + 1;
        }
        assert entries[..i] == entries;
      } else {
        AbsorbAllEmpty(old(State()));
        if level == 0 {
          ret := -1;
        }
      }
    }

    /** The body of `do_dir`'s `readdir` loop for one entry: skip names
        starting with '.', pass over entries that cannot be stat'ed, enter a
        sub-directory only from level 0, and hand files to `do_file`. */
    method DoEntry(level: nat, fullPath: string, currentName: string, entry: string, fs: FileSystem)
      requires level <= 1
      modifies this
      decreases 1 - level, 0
      ensures Filter() == old(Filter())
      ensures State() == AbsorbAll(old(State()), EntryHits(fs, Filter(), level, fullPath, currentName, entry))
    {
      AbsorbAllEmpty(old(State()));
      if !Hidden(entry) {
        var newPath := fullPath + "/" + entry;
        if newPath in fs {
          if fs[newPath].Dir? {
            if level < 1 {
              var ignored := DoDir(level + 1, newPath, fs);
            }
          } else {
            DoFile(currentName, newPath, fs);
          }
        }
      }
    }

    /** `hwmon_scan`: reset the context, walk the tree from the root, and
        return 0 exactly when the root opened and some sensor matched. */
    method Scan(fs: FileSystem, noWifi: bool, noDrivetemp: bool) returns (ret: int)
      modifies this
      ensures Filter() == Filters(noWifi, noDrivetemp)
      ensures State() == ScanResult(fs, Filter())
      ensures ret == (if ScanSucceeded(fs, Filter()) then 0 else -1)
    {
      driver, labelText, path := Unknown, Unknown, Unknown;
      maxTemp := AbsoluteZero;
      valid := false;
      nowifi := noWifi;
      nodrivetemp := noDrivetemp;
      var r := DoDir(0, HwmonRoot, fs);
      if r != 0 {
        return -1;
      }
      if valid {
        return 0;
      }
      return -1;
    }
  }
}
