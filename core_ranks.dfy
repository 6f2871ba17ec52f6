/**
  * The `core_ranks.py` script: the CPU summary (`get_cpu_info`), the core
  * list (`get_core_cpus`, which sorts while every rank is still 0),
  * `update_cores`, and `main` up to the point where it prints.
  */
module CoreRanks {
  import opened Wrappers
  import opened Text
  import opened Sysfs
  import opened Siblings
  import opened Cores
  import opened Ranking

  const Unknown: string := "unknown"
  const CpuinfoPath: string := "/proc/cpuinfo"

  /** The `CpuInfo` dataclass. */
  datatype CpuInfo = CpuInfo(
    modelName: string,
    driver: string,
    governor: string,
    availableGovernors: seq<string>,
    boost: string)

  // ---------------------------------------------------------------------
  // /proc/cpuinfo
  // ---------------------------------------------------------------------

  /** Index of the first c in s at or after `from`, or |s|. */
  function IndexOf(s: string, c: char, from: nat): (n: nat)
    requires from <= |s|
    ensures from <= n <= |s|
    ensures forall i :: from <= i < n ==> s[i] != c
    ensures n < |s| ==> s[n] == c
    decreases |s| - from
  {
    if from == |s| || s[from] == c then from else IndexOf(s, c, from + 1)
  }

  /**
    * `for line in f`: the text cut after each newline, each line keeping
    * its "\n"; only the last line may lack one.
    */
  function Lines(text: string): (lines: seq<string>)
    ensures |lines| <= |text|
    ensures lines == [] <==> text == []
    decreases |text|
  {
    if text == [] then []
    else
      var n := IndexOf(text, '\n', 0);
      if n == |text| then [text] else [text[..n + 1]] + Lines(text[n + 1..])
  }

  /** Joining the lines gives the text back. */
  lemma {:induction false} LinesRoundTrip(text: string)
    ensures Flatten(Lines(text)) == text
    decreases |text|
  {
    if text != [] {
      var n := IndexOf(text, '\n', 0);
      var lines := Lines(text);
      if n == |text| {
        assert lines == [text] && lines[1..] == [];
        assert Flatten(lines) == text + Flatten([]);
        assert text + [] == text;
      } else {
        var rest := text[n + 1..];
        LinesRoundTrip(rest);
        assert lines[0] == text[..n + 1] && lines[1..] == Lines(rest);
        assert Flatten(lines) == text[..n + 1] + Flatten(Lines(rest));
        assert text == text[..n + 1] + rest;
      }
    }
  }

  /** Every line is non-empty, holds no newline before its end, and all but the last end with one. */
  lemma {:induction false} LinesShape(text: string)
    ensures forall i :: 0 <= i < |Lines(text)| ==> Lines(text)[i] != []
    ensures forall i :: 0 <= i < |Lines(text)| ==> '\n' !in Lines(text)[i][..|Lines(text)[i]| - 1]
    ensures forall i :: 0 <= i < |Lines(text)| - 1 ==> Lines(text)[i][|Lines(text)[i]| - 1] == '\n'
    decreases |text|
  {
    if text != [] {
      var n := IndexOf(text, '\n', 0);
      var first := if n == |text| then text else text[..n + 1];
      var m := |first| - 1;
      assert first[..m] == text[..m];
      assert forall k :: 0 <= k < m ==> text[..m][k] == text[k];
      if n < |text| {
        LinesShape(text[n + 1..]);
        var lines := Lines(text);
        assert lines == [first] + Lines(text[n + 1..]);
        forall i | 1 <= i < |lines|
          ensures lines[i] == Lines(text[n + 1..])[i - 1]
        {
        }
      }
    }
  }

  /** `"".join(lines)` */
  function Flatten(lines: seq<string>): string {
    if lines == [] then [] else lines[0] + Flatten(lines[1..])
  }

  /** Index of the first ':' or tab: where the greedy `[^:\t]*` stops. */
  function KeyEnd(line: string, from: nat): (k: nat)
    requires from <= |line|
    ensures from <= k <= |line|
    ensures forall i :: from <= i < k ==> line[i] != ':' && line[i] != '\t'
    ensures k < |line| ==> line[k] == ':' || line[k] == '\t'
    decreases |line| - from
  {
    if from == |line| || line[from] == ':' || line[from] == '\t' then from else KeyEnd(line, from + 1)
  }

  /**
    * `re.compile(r"([^:\t]*)\s*: (.*)").match(line)`, as the two groups. The
    * key run can only end at a ':' or a tab, and the run of whitespace after
    * it must end at the ":"; a shorter key would leave the same whitespace run
    * ending at the same place, so backtracking never finds another match and
    * the greedy attempt decides. `.*` stops at the first newline.
    */
  function CpuinfoMatch(line: string): (m: Option<(string, string)>)
    ensures m.Some? ==> ':' in line
    ensures m.Some? ==> ':' !in m.value.0 && '\t' !in m.value.0 && '\n' !in m.value.1
  {
    var k := KeyEnd(line, 0);
    var e := SpaceEnd(line, k);
    if e + 1 < |line| && line[e] == ':' && line[e + 1] == ' ' then
      var stop := IndexOf(line, '\n', e + 2);
      assert forall i :: 0 <= i < k ==> line[..k][i] == line[i];
      assert forall i :: e + 2 <= i < stop ==> line[e + 2..stop][i - (e + 2)] == line[i];
      Some((line[..k], line[e + 2..stop]))
    else
      None
  }

  /**
    * The kernel's form "key\t: value\n" (or "key: value\n") matches with
    * exactly that key and value.
    */
  lemma CpuinfoMatchOfField(key: string, pad: string, value: string)
    requires ':' !in key && '\t' !in key && '\n' !in value
    requires AllSpace(pad) && (pad == [] || pad[0] == '\t')
    ensures CpuinfoMatch(key + pad + ": " + value + "\n") == Some((key, value))
  {
    var line := key + pad + ": " + value + "\n";
    var k, e := |key|, |key| + |pad|;
    FieldKeyEnd(key, pad, value);
    FieldSpaceEnd(key, pad, value);
    var pre := key + pad + ": ";
    assert |pre| == e + 2;
    LineEnd(pre, value);
    CpuinfoMatchAt(line, k, e, |line| - 1);
    assert line[..k] == key;
    assert line[e + 2..|line| - 1] == value;
  }

  lemma FieldKeyEnd(key: string, pad: string, value: string)
    requires ':' !in key && '\t' !in key
    requires pad == [] || pad[0] == '\t'
    ensures KeyEnd(key + pad + ": " + value + "\n", 0) == |key|
  {
    var line := key + pad + ": " + value + "\n";
    assert forall i :: 0 <= i < |key| ==> line[i] == key[i];
    KeyEndIs(line, 0, |key|);
  }

  lemma FieldSpaceEnd(key: string, pad: string, value: string)
    requires AllSpace(pad)
    ensures SpaceEnd(key + pad + ": " + value + "\n", |key|) == |key| + |pad|
  {
    var line := key + pad + ": " + value + "\n";
    var k, e := |key|, |key| + |pad|;
    assert line[e] == ':';
    assert forall i :: k <= i < e ==> line[i] == pad[i - k];
    SpaceEndIs(line, k, e);
  }

  /** In `pre + value + "\n"` the first newline from the value on is the final one. */
  lemma LineEnd(pre: string, value: string)
    requires '\n' !in value
    ensures IndexOf(pre + value + "\n", '\n', |pre|) == |pre| + |value|
  {
    var line := pre + value + "\n";
    forall i | |pre| <= i < |line| - 1
      ensures line[i] != '\n'
    {
      assert line[i] == value[i - |pre|];
    }
    IndexOfIs(line, '\n', |pre|, |line| - 1);
  }

  lemma CpuinfoMatchAt(line: string, k: nat, e: nat, stop: nat)
    requires KeyEnd(line, 0) == k && SpaceEnd(line, k) == e
    requires e + 1 < |line| && line[e] == ':' && line[e + 1] == ' '
    requires IndexOf(line, '\n', e + 2) == stop
    ensures CpuinfoMatch(line) == Some((line[..k], line[e + 2..stop]))
  {
  }

  lemma {:induction false} KeyEndIs(line: string, from: nat, k: nat)
    requires from <= k < |line|
    requires forall i :: from <= i < k ==> line[i] != ':' && line[i] != '\t'
    requires line[k] == ':' || line[k] == '\t'
    ensures KeyEnd(line, from) == k
    decreases k - from
  {
    if from < k {
      KeyEndIs(line, from + 1, k);
    }
  }

  lemma {:induction false} IndexOfIs(s: string, c: char, from: nat, n: nat)
    requires from <= n < |s|
    requires forall i :: from <= i < n ==> s[i] != c
    requires s[n] == c
    ensures IndexOf(s, c, from) == n
    decreases n - from
  {
    if from < n {
      IndexOfIs(s, c, from + 1, n);
    }
  }

  /** A line of /proc/cpuinfo as the pattern sees it: its key and value, or None. */
  type Field = Option<(string, string)>

  /** The match of every line, in order. */
  function Fields(lines: seq<string>): (fields: seq<Field>)
    ensures |fields| == |lines| && forall i :: 0 <= i < |lines| ==> fields[i] == CpuinfoMatch(lines[i])
  {
    seq(|lines|, i requires 0 <= i < |lines| => CpuinfoMatch(lines[i]))
  }

  /**
    * The model name after reading `fields` with `current` as the value so
    * far: each matching line with key "model name" replaces it by its
    * stripped value, and the first line that does not match ends the reading.
    */
  function ModelNameOf(fields: seq<Field>, current: string): (name: string)
    ensures Unpadded(current) ==> Unpadded(name)
  {
    if fields == [] then current
    else
      match fields[0]
      case None => current
      case Some((key, value)) => ModelNameOf(fields[1..], if key == "model name" then Strip(value) else current)
  }

  /** Only the first block counts: nothing after the first non-matching line is read. */
  lemma {:induction false} ModelNameStopsAtFirstMismatch(block: seq<Field>, rest: seq<Field>, current: string)
    requires forall i :: 0 <= i < |block| ==> block[i].Some?
    ensures ModelNameOf(block + [None] + rest, current) == ModelNameOf(block, current)
  {
    if block == [] {
      assert (block + [None] + rest)[0] == None;
    } else {
      var m := block[0].value;
      var next := if m.0 == "model name" then Strip(m.1) else current;
      assert (block + [None] + rest)[1..] == block[1..] + [None] + rest;
      ModelNameStopsAtFirstMismatch(block[1..], rest, next);
    }
  }

  /** Within the block, the last "model name" line wins. */
  lemma {:induction false} ModelNameLastWins(fields: seq<Field>, k: int, current: string)
    requires 0 <= k < |fields|
    requires forall i :: 0 <= i < |fields| ==> fields[i].Some?
    requires fields[k].value.0 == "model name"
    requires forall i :: k < i < |fields| ==> fields[i].value.0 != "model name"
    ensures ModelNameOf(fields, current) == Strip(fields[k].value.1)
  {
    var m := fields[0].value;
    var next := if m.0 == "model name" then Strip(m.1) else current;
    if k == 0 {
      ModelNameKept(fields[1..], next);
    } else {
      ModelNameLastWins(fields[1..], k - 1, next);
    }
  }

  /** A block without a "model name" line leaves the value as it was ("unknown" at the start). */
  lemma {:induction false} ModelNameKept(fields: seq<Field>, current: string)
    requires forall i :: 0 <= i < |fields| ==> fields[i].Some? && fields[i].value.0 != "model name"
    ensures ModelNameOf(fields, current) == current
  {
    if fields != [] {
      ModelNameKept(fields[1..], current);
    }
  }

  /**
    * The model-name loop of `get_cpu_info`: reads matching lines, keeps the
    * stripped value of each "model name" line, and breaks at the first line
    * that does not match.
    */
  method ReadModelName(lines: seq<string>) returns (modelName: string)
    ensures modelName == ModelNameOf(Fields(lines), Unknown)
  {
    ghost var fields := Fields(lines);
    modelName := Unknown;
    var i := 0;
    while i < |lines|
      invariant 0 <= i <= |lines|
      invariant ModelNameOf(fields[i..], modelName) == ModelNameOf(fields, Unknown)
    {
      var m := CpuinfoMatch(lines[i]);
      assert fields[i..][0] == m;
      if m.None? {
        break;
      }
      assert fields[i..][1..] == fields[i + 1..];
      if m.value.0 == "model name" {
        modelName := Strip(m.value.1);
      }
      i := i + 1;
    }
  }

  // ---------------------------------------------------------------------
  // policy0 and intel_pstate
  // ---------------------------------------------------------------------

  function BoostPath(): string { Child(PolicyBase, "boost") }
  function NoTurboPath(): string { Child(CpuBase, "intel_pstate/no_turbo") }

  /**
    * The turbo state: the cpufreq `boost` flag (1 means on) when it reads as
    * an integer, else intel_pstate's `no_turbo` flag (0 means on), else
    * "unknown".
    */
  function Boost(fs: FileMap): (b: string)
    ensures b in {"Enabled", "Disabled", Unknown}
    ensures ReadInt(fs, BoostPath()).Some? ==> (b == "Enabled" <==> ReadInt(fs, BoostPath()).value == 1)
    ensures ReadInt(fs, BoostPath()).None? && ReadInt(fs, NoTurboPath()).Some? ==>
              (b == "Enabled" <==> ReadInt(fs, NoTurboPath()).value == 0)
    ensures b == Unknown <==> ReadInt(fs, BoostPath()).None? && ReadInt(fs, NoTurboPath()).None?
  {
    match ReadInt(fs, BoostPath())
    case Some(boost) => if boost == 1 then "Enabled" else "Disabled"
    case None =>
      match ReadInt(fs, NoTurboPath())
      case Some(noTurbo) => if noTurbo == 0 then "Enabled" else "Disabled"
      case None => Unknown
  }

  /** The two flags have opposite polarity: "1" in `boost` and "0" in `no_turbo` both mean on. */
  lemma BoostPolarity(fs: FileMap)
    requires BoostPath() !in fs
    requires NoTurboPath() in fs && fs[NoTurboPath()] == Some(ShowInt(1) + "\n")
    ensures Boost(fs) == "Disabled"
  {
    ReadIntOfRendered(fs, NoTurboPath(), 1);
  }

  /** `read_str(path).strip()` when the file reads, else the default. */
  function StrippedOr(fs: FileMap, path: string, default: string): (s: string)
    ensures ReadStr(fs, path).None? ==> s == default
    ensures ReadStr(fs, path).Some? ==> Unpadded(s) && s == Strip(fs[path].value)
  {
    match ReadStr(fs, path)
    case None => default
    case Some(text) =>
      assert Unpadded(Strip(text)) by {
        var l := StripLeft(text);
        var t := Strip(text);
        if t != [] {
          assert t == l[..|t|];
        }
      }
      Strip(text)
  }

  /** `[g.strip() for g in parts]` */
  function StripAll(parts: seq<string>): (r: seq<string>)
    ensures |r| == |parts|
  {
    if parts == [] then [] else [Strip(parts[0])] + StripAll(parts[1..])
  }

  /** `tuple([g.strip() for g in text.strip().split(" ")])` */
  function Governors(text: string): (names: seq<string>)
    ensures |names| > 0
  {
    StripAll(Split(Strip(text), ' '))
  }

  /** A governor name as the kernel writes it: non-empty, without whitespace. */
  predicate IsWord(s: string) {
    s != [] && forall j :: 0 <= j < |s| ==> !IsSpace(s[j])
  }

  /**
    * The kernel lists the governors separated by single spaces with a
    * trailing newline; reading that back gives the names in order.
    */
  lemma GovernorsOfJoin(names: seq<string>)
    requires |names| > 0
    requires forall i :: 0 <= i < |names| ==> IsWord(names[i])
    ensures Governors(Join(names, ' ') + "\n") == names
  {
    var body := Join(names, ' ');
    JoinUnpadded(names);
    StripNewline(body);
    SplitOfWords(names);
    StripAllUnpadded(names);
  }

  lemma SplitOfWords(names: seq<string>)
    requires |names| > 0
    requires forall i :: 0 <= i < |names| ==> IsWord(names[i])
    ensures Split(Join(names, ' '), ' ') == names
  {
    forall i | 0 <= i < |names|
      ensures ' ' !in names[i]
    {
      assert IsWord(names[i]);
      assert forall j :: 0 <= j < |names[i]| ==> names[i][j] != ' ';
    }
    SplitOfJoin(names, ' ');
  }

  /** Names without whitespace are left alone by `strip()`. */
  lemma {:induction false} StripAllUnpadded(names: seq<string>)
    requires forall i :: 0 <= i < |names| ==> IsWord(names[i])
    ensures StripAll(names) == names
  {
    if names != [] {
      var rest := names[1..];
      WordsTail(names);
      StripAllUnpadded(rest);
      WordIsStripped(names[0]);
      assert names == [names[0]] + rest;
    }
  }

  lemma WordsTail(names: seq<string>)
    requires names != [] && forall i :: 0 <= i < |names| ==> IsWord(names[i])
    ensures forall i :: 0 <= i < |names[1..]| ==> IsWord(names[1..][i])
  {
    forall i | 0 <= i < |names[1..]|
      ensures IsWord(names[1..][i])
    {
      assert names[1..][i] == names[i + 1];
    }
  }

  lemma WordIsStripped(w: string)
    requires IsWord(w)
    ensures Strip(w) == w
  {
    assert !IsSpace(w[0]) && !IsSpace(w[|w| - 1]);
    StripUnpadded(w);
  }

  lemma {:induction false} JoinUnpadded(names: seq<string>)
    requires |names| > 0
    requires forall i :: 0 <= i < |names| ==> IsWord(names[i])
    ensures Join(names, ' ') != [] && Unpadded(Join(names, ' '))
  {
    var n := names[0];
    assert IsWord(n);
    if |names| > 1 {
      WordsTail(names);
      JoinUnpadded(names[1..]);
      var rest := Join(names[1..], ' ');
      var j := n + [' '] + rest;
      assert j[0] == n[0] && j[|j| - 1] == rest[|rest| - 1];
    }
  }

  /** An empty governors file gives one empty name, because `"".split(" ") == [""]`. */
  lemma GovernorsOfEmptyFile()
    ensures Governors("") == [""]
  {
    assert Strip("") == "";
  }

  function GovernorPath(): string { Child(PolicyBase, "scaling_governor") }
  function AvailableGovernorsPath(): string { Child(PolicyBase, "scaling_available_governors") }
  function DriverPath(): string { Child(PolicyBase, "scaling_driver") }

  /**
    * The summary `get_cpu_info` builds from a readable /proc/cpuinfo: every
    * field is its source's value, or its default when the source does not read.
    */
  predicate CpuInfoOf(fs: FileMap, info: CpuInfo)
    requires ReadStr(fs, CpuinfoPath).Some?
  {
    && info.modelName == ModelNameOf(Fields(Lines(ReadStr(fs, CpuinfoPath).value)), Unknown)
    && info.boost == Boost(fs)
    && info.governor == StrippedOr(fs, GovernorPath(), Unknown)
    && info.driver == StrippedOr(fs, DriverPath(), Unknown)
    && info.availableGovernors ==
         match ReadStr(fs, AvailableGovernorsPath()) case Some(text) => Governors(text) case None => []
  }

  /**
    * `get_cpu_info`. Only opening /proc/cpuinfo can raise (OSError); every
    * sysfs file is optional and a missing one leaves the field at its default.
    */
  method GetCpuInfo(fs: FileMap) returns (r: Result<CpuInfo, Error>)
    ensures r.Err? <==> ReadStr(fs, CpuinfoPath).None?
    ensures r.Err? ==> r.error == OSError
    ensures r.Ok? ==> r.value.modelName == ModelNameOf(Fields(Lines(fs[CpuinfoPath].value)), Unknown)
    ensures r.Ok? ==> r.value.boost == Boost(fs)
    ensures r.Ok? ==> r.value.governor == StrippedOr(fs, GovernorPath(), Unknown)
    ensures r.Ok? ==> r.value.driver == StrippedOr(fs, DriverPath(), Unknown)
    ensures r.Ok? ==> r.value.availableGovernors ==
                        match ReadStr(fs, AvailableGovernorsPath()) case Some(text) => Governors(text) case None => []
    ensures r.Ok? ==> CpuInfoOf(fs, r.value)
  {
    var cpuinfo := ReadStr(fs, CpuinfoPath);
    if cpuinfo.None? {
      return Err(OSError);
    }
    var modelName := ReadModelName(Lines(cpuinfo.value));
    var info := CpuInfo(modelName, Unknown, Unknown, [], Unknown);
    info := info.(boost := Boost(fs));
    var governor := ReadStr(fs, GovernorPath());
    if governor.Some? {
      info := info.(governor := Strip(governor.value));
    }
    var available := ReadStr(fs, AvailableGovernorsPath());
    if available.Some? {
      info := info.(availableGovernors := Governors(available.value));
    }
    var driver := ReadStr(fs, DriverPath());
    if driver.Some? {
      info := info.(driver := Strip(driver.value));
    }
    return Ok(info);
  }

  // ---------------------------------------------------------------------
  // Cores
  // ---------------------------------------------------------------------

  /**
    * One entry of `CPU_BASE.iterdir()`: `read_str` swallows a missing or
    * unreadable list (the entry is skipped), and a list `int()` rejects raises
    * ValueError.
    */
  function Descriptor(fs: FileMap, name: string): (d: Lookup)
    ensures d.Skip? <==> ReadStr(fs, SiblingsPath(Child(CpuBase, name))).None?
    ensures d.Fail? ==> d.error == ValueError
    ensures d.Found? ==> Ascending(d.cpus)
  {
    match ReadStr(fs, SiblingsPath(Child(CpuBase, name)))
    case None => Skip
    case Some(text) =>
      match ParseSiblingList(text)
      case None => Fail(ValueError)
      case Some(ids) => Found(ids)
  }

  /**
    * The lookup of every entry, in listing order. `CoreRanker.Lookups` is the
    * same map over core-ranker.py's own `Descriptor`.
    */
  function Lookups(fs: FileMap, entries: seq<string>): (ds: seq<Lookup>)
    ensures |ds| == |entries| && forall i :: 0 <= i < |entries| ==> ds[i] == Descriptor(fs, entries[i])
  {
    seq(|entries|, i requires 0 <= i < |entries| => Descriptor(fs, entries[i]))
  }

  /** The body of the `unique_cores` loop for one entry: read its sibling list and expand it. */
  method ReadDescriptor(fs: FileMap, name: string) returns (d: Lookup)
    ensures d == Descriptor(fs, name)
  {
    var text := ReadStr(fs, SiblingsPath(Child(CpuBase, name)));
    if text.None? {
      return Skip;
    }
    var threads := ExpandSiblingList(text.value);
    if threads.None? {
      return Fail(ValueError);
    }
    return Found(threads.value);
  }

  /** The `unique_cores` loop of `get_core_cpus` over the entries in listing order. */
  method CollectGroups(fs: FileMap, entries: seq<string>) returns (r: Result<set<seq<int>>, Error>)
    ensures r == GroupsOf(Lookups(fs, entries))
  {
    ghost var ds := Lookups(fs, entries);
    var groups: set<seq<int>> := {};
    var i := 0;
    while i < |entries|
      invariant 0 <= i <= |entries|
      invariant GroupsOf(ds[..i]) == Ok(groups)
    {
      var d := ReadDescriptor(fs, entries[i]);
      assert d == ds[i];
      VisitEntry(ds, i, groups);
      match d {
        case Skip =>
        case Fail(e) =>
          return Err(e);
        case Found(cpus) =>
          groups := groups + {cpus};
      }
      i := i + 1;
    }
    assert ds[..i] == ds;
    return Ok(groups);
  }

  /** Sibling tuples strictly increasing down the list. */
  predicate SiblingsAscending(s: seq<CoreInfo>) {
    forall i, j :: 0 <= i < j < |s| ==> LexLt(s[i].siblings, s[j].siblings)
  }

  /** With every rank equal, the `(-rank, siblings)` order is the sibling order. */
  lemma EqualRanksSortBySiblings(s: seq<CoreInfo>)
    requires SortedByKey(s) && DistinctSiblings(s)
    requires forall i :: 0 <= i < |s| ==> s[i].rank == 0
    ensures SiblingsAscending(s)
  {
    forall i, j | 0 <= i < j < |s|
      ensures LexLt(s[i].siblings, s[j].siblings)
    {
      assert KeyLe(s[i], s[j]);
    }
  }

  /**
    * `get_core_cpus`: one default record per distinct tuple, sorted while
    * every rank is 0, which orders them by sibling tuple alone.
    */
  method GetCoreCpus(fs: FileMap, entries: seq<string>) returns (r: Result<array<CoreInfo>, Error>)
    ensures r.Err? <==> GroupsOf(Lookups(fs, entries)).Err?
    ensures r.Err? ==> r.error == GroupsOf(Lookups(fs, entries)).error
    ensures r.Ok? ==> fresh(r.value)
    ensures r.Ok? ==> OnePerGroup(r.value[..], GroupsOf(Lookups(fs, entries)).value) && AllNew(r.value[..])
    ensures r.Ok? ==> SiblingsAscending(r.value[..])
  {
    var groups := CollectGroups(fs, entries);
    if groups.Err? {
      return Err(groups.error);
    }
    var cores := FromGroups(groups.value);
    ghost var unsorted := cores[..];
    SortByKey(cores);
    PermutationKeepsGroups(unsorted, cores[..], groups.value);
    PermutationKeepsNew(unsorted, cores[..]);
    EqualRanksSortBySiblings(cores[..]);
    return Ok(cores);
  }

  /** A core after `update_cores`: rank and frequencies read from its first sibling's directory. */
  function Populated(fs: FileMap, core: CoreInfo): (c: CoreInfo)
    requires core.siblings != []
    ensures c.siblings == core.siblings
  {
    var cpuPath := CpuDir(core.siblings[0]);
    var (minMhz, maxMhz) := MinMaxFrequencies(fs, cpuPath);
    CoreInfo(GetRank(fs, cpuPath), core.siblings, minMhz, maxMhz)
  }

  /** The files `update_cores` reads for a core whose first sibling is cpu n. */
  function CoreFiles(n: int): set<string> {
    var cpuPath := CpuDir(n);
    {HighestPerfPath(cpuPath), ItmtScorePath(cpuPath), BaseFrequencyPath(cpuPath),
     CoreIdPath(cpuPath), MinFreqPath(cpuPath), MaxFreqPath(cpuPath)}
  }

  /**
    * Only the first sibling's directory is read: two snapshots that agree on
    * its six files give the same record, whatever the other siblings' files hold.
    */
  lemma PopulatedReadsFirstSiblingOnly(fs1: FileMap, fs2: FileMap, core: CoreInfo)
    requires core.siblings != []
    requires forall p :: p in CoreFiles(core.siblings[0]) ==> ReadStr(fs1, p) == ReadStr(fs2, p)
    ensures Populated(fs1, core) == Populated(fs2, core)
  {
    var cpuPath := CpuDir(core.siblings[0]);
    assert GetRank(fs1, cpuPath) == GetRank(fs2, cpuPath) by {
      SameReadsSameRank(fs1, fs2, cpuPath);
    }
    assert MinMaxFrequencies(fs1, cpuPath) == MinMaxFrequencies(fs2, cpuPath) by {
      SameReadsSameFrequencies(fs1, fs2, cpuPath);
    }
  }

  /**
    * `update_cores`: each core in list order gets its rank and frequencies
    * from its first sibling; a core with no siblings raises IndexError at
    * `core.siblings[0]`, leaving it and every later core untouched.
    */
  method UpdateCores(fs: FileMap, cores: array<CoreInfo>) returns (err: Option<Error>)
    modifies cores
    ensures err.Some? <==> FirstEmpty(old(cores[..])) < cores.Length
    ensures err.Some? ==> err.value == IndexError
    ensures forall i {:trigger Populated(fs, old(cores[i]))} :: 0 <= i < FirstEmpty(old(cores[..])) ==> cores[i] == Populated(fs, old(cores[i]))
    ensures forall i :: FirstEmpty(old(cores[..])) <= i < cores.Length ==> cores[i] == old(cores[i])
  {
    ghost var orig := cores[..];
    ghost var k := FirstEmpty(orig);
    var i := 0;
    while i < cores.Length
      invariant 0 <= i <= k
      invariant forall j {:trigger Populated(fs, orig[j])} :: 0 <= j < i ==> cores[j] == Populated(fs, orig[j])
      invariant forall j :: i <= j < cores.Length ==> cores[j] == orig[j]
    {
      if cores[i].siblings == [] {
        return Some(IndexError);
      }
      assert i < k;
      var c := Populated(fs, cores[i]);
      cores[i] := c;
      i := i + 1;
    }
    return None;
  }

  /** What `main` prints, as values: the summary and the final core table. */
  predicate ReportShape(fs: FileMap, groups: set<seq<int>>, s: seq<CoreInfo>) {
    OnePerGroup(s, groups) && SiblingsAscending(s) &&
    forall i :: 0 <= i < |s| ==> s[i].siblings != [] && s[i] == Populated(fs, NewCore(s[i].siblings))
  }

  /**
    * `main` up to its prints. It fails with OSError when /proc/cpuinfo cannot
    * be read, then with the first error of the sibling lists, then with
    * IndexError when some list expands to nothing (a reversed range such as
    * "3-1"). On success every distinct tuple appears once, populated from its
    * first sibling, in ascending sibling order.
    */
  method Report(fs: FileMap, entries: seq<string>) returns (r: Result<(CpuInfo, array<CoreInfo>), Error>)
    ensures ReadStr(fs, CpuinfoPath).None? ==> r == Err(OSError)
    ensures ReadStr(fs, CpuinfoPath).Some? && GroupsOf(Lookups(fs, entries)).Err? ==>
              r == Err(GroupsOf(Lookups(fs, entries)).error)
    ensures ReadStr(fs, CpuinfoPath).Some? && GroupsOf(Lookups(fs, entries)).Ok? ==>
              (r.Err? <==> [] in GroupsOf(Lookups(fs, entries)).value) && (r.Err? ==> r.error == IndexError)
    ensures r.Ok? ==> fresh(r.value.1) && ReportShape(fs, GroupsOf(Lookups(fs, entries)).value, r.value.1[..])
    ensures r.Ok? ==> ReadStr(fs, CpuinfoPath).Some? && CpuInfoOf(fs, r.value.0)
  {
    var info := GetCpuInfo(fs);
    if info.Err? {
      return Err(info.error);
    }
    var cores := GetCoreCpus(fs, entries);
    if cores.Err? {
      return Err(cores.error);
    }
    var a := cores.value;
    ghost var groups := GroupsOf(Lookups(fs, entries)).value;
    ghost var before := a[..];
    EmptyGroupIsFirstEmpty(before, groups);
    var err := UpdateCores(fs, a);
    if err.Some? {
      return Err(err.value);
    }
    UpdatedShape(fs, groups, before, a[..]);
    return Ok((info.value, a));
  }

  /** Populating every core keeps one core per group in ascending order and gives each its record. */
  lemma UpdatedShape(fs: FileMap, groups: set<seq<int>>, before: seq<CoreInfo>, after: seq<CoreInfo>)
    requires OnePerGroup(before, groups) && AllNew(before) && SiblingsAscending(before)
    requires FirstEmpty(before) == |before| == |after|
    requires forall j :: 0 <= j < |before| ==> after[j] == Populated(fs, before[j])
    ensures ReportShape(fs, groups, after)
  {
    SameSiblingsKeepShape(before, after, groups);
    forall i | 0 <= i < |after|
      ensures after[i].siblings != [] && after[i] == Populated(fs, NewCore(after[i].siblings))
    {
      var b := before[i];
      assert b == NewCore(b.siblings);
      assert after[i] == Populated(fs, b);
    }
    forall i, j | 0 <= i < j < |after|
      ensures LexLt(after[i].siblings, after[j].siblings)
    {
      assert LexLt(before[i].siblings, before[j].siblings);
    }
  }

  /**
    * Two cores without SMT siblings, cpu0 with CPPC `highest_perf` 1 and cpu1
    * with 2: the sibling lists collect to the two one-element tuples.
    */
  lemma TwoCoresGroups(fs: FileMap)
    requires ReadStr(fs, SiblingsPath(Child(CpuBase, "cpu0"))) == Some(ShowNat(0) + "\n")
    requires ReadStr(fs, SiblingsPath(Child(CpuBase, "cpu1"))) == Some(ShowNat(1) + "\n")
    ensures GroupsOf(Lookups(fs, ["cpu0", "cpu1"])) == Ok({[0], [1]})
  {
    DescriptorOfSingle(fs, "cpu0", 0);
    DescriptorOfSingle(fs, "cpu1", 1);
    var ds := Lookups(fs, ["cpu0", "cpu1"]);
    assert |ds| == 2 && ds[0] == Found([0]) && ds[1] == Found([1]);
    TwoFound(ds, [0], [1]);
  }

  lemma TwoFound(ds: seq<Lookup>, a: seq<int>, b: seq<int>)
    requires |ds| == 2 && ds[0] == Found(a) && ds[1] == Found(b)
    ensures GroupsOf(ds) == Ok({a, b})
  {
    assert ds[..1][..0] == [] && ds[..1][0] == Found(a) && ds[..|ds| - 1] == ds[..1];
    var g0: set<seq<int>> := {};
    assert GroupsOf(ds[..1]) == Ok(g0 + {a});
    assert GroupsOf(ds) == Ok(g0 + {a} + {b});
    assert g0 + {a} + {b} == {a, b};
  }

  /** An entry whose sibling list reads "n\n" contributes the tuple (n,). */
  lemma DescriptorOfSingle(fs: FileMap, name: string, n: nat)
    requires ReadStr(fs, SiblingsPath(Child(CpuBase, name))) == Some(ShowNat(n) + "\n")
    ensures Descriptor(fs, name) == Found([n])
  {
    SingleDescriptor(n);
  }

  /** A core populated from cpu n whose `highest_perf` file reads "rank\n" has that rank. */
  lemma RankOfSingle(fs: FileMap, c: CoreInfo, n: nat, rank: int)
    requires c == Populated(fs, NewCore([n]))
    requires ReadStr(fs, HighestPerfPath(CpuDir(n))) == Some(ShowInt(rank) + "\n")
    ensures c.rank == rank
  {
    ReadIntOfRendered(fs, HighestPerfPath(CpuDir(n)), rank);
  }

  /** The position of a collected tuple in a list holding one core per tuple. */
  lemma FindGroup(s: seq<CoreInfo>, groups: set<seq<int>>, g: seq<int>) returns (i: nat)
    requires OnePerGroup(s, groups) && g in groups
    ensures i < |s| && s[i].siblings == g
  {
    var k :| 0 <= k < |s| && SiblingTuples(s)[k] == g;
    i := k;
  }

  /**
    * `main` as written does not list the cores highest rank first: with the
    * two cores above, the one of rank 1 comes before the one of rank 2,
    * because `get_core_cpus` sorts while every rank is still 0.
    */
  lemma ReportNotRankOrdered(fs: FileMap, s: seq<CoreInfo>)
    requires ReadStr(fs, HighestPerfPath(CpuDir(0))) == Some(ShowInt(1) + "\n")
    requires ReadStr(fs, HighestPerfPath(CpuDir(1))) == Some(ShowInt(2) + "\n")
    requires ReportShape(fs, {[0], [1]}, s)
    ensures exists i, j :: 0 <= i < j < |s| && s[i].siblings == [0] && s[i].rank == 1 &&
                           s[j].siblings == [1] && s[j].rank == 2
    ensures !SortedByKey(s)
  {
    var i := FindGroup(s, {[0], [1]}, [0]);
    var j := FindGroup(s, {[0], [1]}, [1]);
    RankOfSingle(fs, s[i], 0, 1);
    RankOfSingle(fs, s[j], 1, 2);
    LowerRankFirst(s, i, j);
  }

  lemma LowerRankFirst(s: seq<CoreInfo>, i: nat, j: nat)
    requires SiblingsAscending(s)
    requires i < |s| && j < |s| && s[i].siblings == [0] && s[j].siblings == [1]
    requires s[i].rank < s[j].rank
    ensures i < j && !SortedByKey(s)
  {
    assert !LexLt([1], [0]);
    assert !KeyLe(s[i], s[j]);
  }

  /** What `main` prints once the table is ordered as the comment at the sort intends. */
  predicate RankedShape(fs: FileMap, groups: set<seq<int>>, s: seq<CoreInfo>) {
    OnePerGroup(s, groups) && SortedByKey(s) &&
    forall i :: 0 <= i < |s| ==> s[i].siblings != [] && s[i] == Populated(fs, NewCore(s[i].siblings))
  }

  /**
    * `main` with the sort moved after `update_cores`, as core-ranker.py does
    * it: same errors in the same order, and on success the table is ordered
    * by `(-rank, siblings)`.
    */
  method RankedReport(fs: FileMap, entries: seq<string>) returns (r: Result<(CpuInfo, array<CoreInfo>), Error>)
    ensures ReadStr(fs, CpuinfoPath).None? ==> r == Err(OSError)
    ensures ReadStr(fs, CpuinfoPath).Some? && GroupsOf(Lookups(fs, entries)).Err? ==>
              r == Err(GroupsOf(Lookups(fs, entries)).error)
    ensures ReadStr(fs, CpuinfoPath).Some? && GroupsOf(Lookups(fs, entries)).Ok? ==>
              (r.Err? <==> [] in GroupsOf(Lookups(fs, entries)).value) && (r.Err? ==> r.error == IndexError)
    ensures r.Ok? ==> fresh(r.value.1) && RankedShape(fs, GroupsOf(Lookups(fs, entries)).value, r.value.1[..])
    ensures r.Ok? ==> ReadStr(fs, CpuinfoPath).Some? && CpuInfoOf(fs, r.value.0)
  {
    var info := GetCpuInfo(fs);
    if info.Err? {
      return Err(info.error);
    }
    var cores := GetCoreCpus(fs, entries);
    if cores.Err? {
      return Err(cores.error);
    }
    var a := cores.value;
    ghost var groups := GroupsOf(Lookups(fs, entries)).value;
    ghost var before := a[..];
    EmptyGroupIsFirstEmpty(before, groups);
    var err := UpdateCores(fs, a);
    if err.Some? {
      return Err(err.value);
    }
    UpdatedShape(fs, groups, before, a[..]);
    ghost var populated := a[..];
    SortByKey(a);
    SortedKeepsRecords(fs, groups, populated, a[..]);
    return Ok((info.value, a));
  }

  lemma SortedKeepsRecords(fs: FileMap, groups: set<seq<int>>, s: seq<CoreInfo>, t: seq<CoreInfo>)
    requires ReportShape(fs, groups, s)
    requires multiset(t) == multiset(s) && SortedByKey(t)
    ensures RankedShape(fs, groups, t)
  {
    PermutationKeepsGroups(s, t, groups);
    forall k | 0 <= k < |t|
      ensures t[k].siblings != [] && t[k] == Populated(fs, NewCore(t[k].siblings))
    {
      var m :| 0 <= m < |s| && s[m] == t[k];
    }
  }

  /** With the corrected order the same two cores come out rank 2 first. */
  lemma RankedReportPutsFasterFirst(fs: FileMap, s: seq<CoreInfo>)
    requires ReadStr(fs, HighestPerfPath(CpuDir(0))) == Some(ShowInt(1) + "\n")
    requires ReadStr(fs, HighestPerfPath(CpuDir(1))) == Some(ShowInt(2) + "\n")
    requires RankedShape(fs, {[0], [1]}, s)
    ensures exists i, j :: 0 <= i < j < |s| && s[i].siblings == [1] && s[i].rank == 2 &&
                           s[j].siblings == [0] && s[j].rank == 1
  {
    var i := FindGroup(s, {[0], [1]}, [1]);
    var j := FindGroup(s, {[0], [1]}, [0]);
    RankOfSingle(fs, s[i], 1, 2);
    RankOfSingle(fs, s[j], 0, 1);
    HigherRankFirst(s, i, j);
  }

  lemma HigherRankFirst(s: seq<CoreInfo>, i: nat, j: nat)
    requires SortedByKey(s)
    requires i < |s| && j < |s| && s[i].rank > s[j].rank
    ensures i < j
  {
    assert !KeyLe(s[j], s[i]);
  }
}
