/**
  * core-ranker.py: the same sysfs reads as core_ranks.py, but only the
  * `cpu\d+` entries of the CPU directory are visited, an unreadable sibling
  * list raises, and the records are sorted after ranking, so the table comes
  * out fastest core first.
  */
module CoreRanker {
  import opened Wrappers
  import opened Text
  import opened Sysfs
  import opened Siblings
  import opened Ranking
  import opened Cores
  import CoreRanks

  // ---------------------------------------------------------------------
  // Collecting the sibling tuples
  // ---------------------------------------------------------------------

  /** `re.match(r"cpu\d+", d)`: the name starts with "cpu" and a digit; anything may follow. */
  predicate IsCpuDirName(d: string) {
    |d| >= 4 && d[..3] == "cpu" && IsDigit(d[3])
  }

  /** `[d for d in os.listdir(base_path) if re.match(r"cpu\d+", d)]` */
  function CpuDirs(names: seq<string>): (dirs: seq<string>)
    ensures |dirs| <= |names|
  {
    if names == [] then []
    else
      var init := names[..|names| - 1];
      var last := names[|names| - 1];
      CpuDirs(init) + if IsCpuDirName(last) then [last] else []
  }

  /** The filter keeps the listing order: filtering a concatenation filters each part. */
  lemma {:induction false} CpuDirsAppend(a: seq<string>, b: seq<string>)
    ensures CpuDirs(a + b) == CpuDirs(a) + CpuDirs(b)
    decreases |b|
  {
    if b != [] {
      var init := b[..|b| - 1];
      var last := b[|b| - 1];
      assert a + b == (a + init) + [last];
      assert (a + b)[..|a + b| - 1] == a + init;
      CpuDirsAppend(a, init);
    } else {
      assert a + b == a;
    }
  }

  /** The filter keeps exactly the listed names that match. */
  lemma {:induction false} CpuDirsMembers(names: seq<string>, d: string)
    ensures d in CpuDirs(names) <==> d in names && IsCpuDirName(d)
  {
    if names != [] {
      var init := names[..|names| - 1];
      var last := names[|names| - 1];
      assert names == init + [last];
      CpuDirsMembers(init, d);
    }
  }

  /** Per-CPU directories pass the filter; the other entries of the CPU directory do not. */
  lemma CpuDirNameExamples()
    ensures IsCpuDirName("cpu0") && IsCpuDirName("cpu15")
    ensures !IsCpuDirName("cpu") && !IsCpuDirName("cpufreq") && !IsCpuDirName("cpuidle")
    ensures !IsCpuDirName("smt") && !IsCpuDirName("online")
  {
    assert "cpu0"[..3] == "cpu" && "cpu15"[..3] == "cpu";
  }

  /**
    * One `cpu\d+` entry: a missing sibling list is skipped (`os.path.exists`),
    * one that exists but cannot be opened raises OSError, and one `int()`
    * rejects raises ValueError.
    */
  function Descriptor(fs: FileMap, name: string): (d: Lookup)
    ensures d.Skip? <==> SiblingsPath(Child(CpuBase, name)) !in fs
    ensures d == Fail(OSError) <==> ReadStr(fs, SiblingsPath(Child(CpuBase, name))).None? && !d.Skip?
    ensures d.Found? ==> Ascending(d.cpus)
  {
    var path := SiblingsPath(Child(CpuBase, name));
    if path !in fs then Skip
    else
      match fs[path]
      case None => Fail(OSError)
      case Some(text) =>
        match ParseSiblingList(text)
        case None => Fail(ValueError)
        case Some(ids) => Found(ids)
  }

  /**
    * The two scripts treat a sibling list alike except when it exists but
    * cannot be read: core_ranks.py skips that entry, core-ranker.py raises.
    */
  lemma DescriptorsAgreeUnlessUnreadable(fs: FileMap, name: string)
    ensures var path := SiblingsPath(Child(CpuBase, name));
            if path in fs && fs[path].None?
            then CoreRanks.Descriptor(fs, name) == Skip && Descriptor(fs, name) == Fail(OSError)
            else CoreRanks.Descriptor(fs, name) == Descriptor(fs, name)
  {
  }

  /**
    * The lookup of every filtered entry, in listing order: the same map as
    * `CoreRanks.Lookups`, over this script's `Descriptor`.
    */
  function Lookups(fs: FileMap, entries: seq<string>): (ds: seq<Lookup>)
    ensures |ds| == |entries| && forall i :: 0 <= i < |entries| ==> ds[i] == Descriptor(fs, entries[i])
  {
    seq(|entries|, i requires 0 <= i < |entries| => Descriptor(fs, entries[i]))
  }

  /** The body of the `unique_cores` loop for one entry. */
  method ReadDescriptor(fs: FileMap, name: string) returns (d: Lookup)
    ensures d == Descriptor(fs, name)
  {
    var path := SiblingsPath(Child(CpuBase, name));
    if path !in fs {
      return Skip;
    }
    var content := fs[path];
    if content.None? {
      return Fail(OSError);
    }
    var threads := ExpandSiblingList(content.value);
    if threads.None? {
      return Fail(ValueError);
    }
    return Found(threads.value);
  }

  /** The loop body for the i-th filtered entry, as an element of `Lookups`. */
  method ReadLookup(fs: FileMap, names: seq<string>, i: nat) returns (d: Lookup)
    requires i < |names|
    ensures d == Lookups(fs, names)[i]
  {
    d := ReadDescriptor(fs, names[i]);
  }

  /** The `unique_cores` loop over the filtered listing, in listing order. */
  method CollectGroups(fs: FileMap, listing: seq<string>) returns (r: Result<set<seq<int>>, Error>)
    ensures r == GroupsOf(Lookups(fs, CpuDirs(listing)))
  {
    var cpuDirs := CpuDirs(listing);
    ghost var ds := Lookups(fs, cpuDirs);
    var groups: set<seq<int>> := {};
    var i := 0;
    while i < |cpuDirs|
      invariant 0 <= i <= |cpuDirs|
      invariant GroupsOf(ds[..i]) == Ok(groups)
    {
      var d := ReadLookup(fs, cpuDirs, i);
      VisitEntry(ds, i, groups);
      match d {
        case Skip =>
        case Fail(e) =>
          return Err(e);
        case Found(cpus) =>
          groups := groups + {cpus};
      }
      i := i + 1;
    }
    assert ds[..i] == ds;
    return Ok(groups);
  }

  /**
    * `get_core_cpus`: one default record per distinct tuple, in the set's
    * iteration order; unlike core_ranks.py it does not sort.
    */
  method GetCoreCpus(fs: FileMap, listing: seq<string>) returns (r: Result<array<CoreInfo>, Error>)
    ensures r.Err? <==> GroupsOf(Lookups(fs, CpuDirs(listing))).Err?
    ensures r.Err? ==> r.error == GroupsOf(Lookups(fs, CpuDirs(listing))).error
    ensures r.Ok? ==> fresh(r.value)
    ensures r.Ok? ==> OnePerGroup(r.value[..], GroupsOf(Lookups(fs, CpuDirs(listing))).value) && AllNew(r.value[..])
  {
    var groups := CollectGroups(fs, listing);
    if groups.Err? {
      return Err(groups.error);
    }
    var cores := FromGroups(groups.value);
    return Ok(cores);
  }

  // ---------------------------------------------------------------------
  // Agreement with core_ranks.py on the collected tuples
  // ---------------------------------------------------------------------

  /**
    * The listing condition under which the two scripts visit the same lists:
    * an entry the filter drops has no sibling list, and every sibling list
    * that exists can be read.
    */
  predicate PlainListing(fs: FileMap, listing: seq<string>) {
    forall i :: 0 <= i < |listing| ==>
      (!IsCpuDirName(listing[i]) ==> SiblingsPath(Child(CpuBase, listing[i])) !in fs) &&
      (SiblingsPath(Child(CpuBase, listing[i])) in fs ==> fs[SiblingsPath(Child(CpuBase, listing[i]))].Some?)
  }

  /**
    * On a plain listing both scripts collect the same tuples or raise the
    * same error: the filter and the OSError path change nothing there.
    */
  lemma {:induction false} SameGroupsAsCoreRanks(fs: FileMap, listing: seq<string>)
    requires PlainListing(fs, listing)
    ensures GroupsOf(CoreRanks.Lookups(fs, listing)) == GroupsOf(Lookups(fs, CpuDirs(listing)))
  {
    if listing != [] {
      var init := listing[..|listing| - 1];
      var last := listing[|listing| - 1];
      PlainListingInit(fs, listing);
      SameGroupsAsCoreRanks(fs, init);
      CoreRanksStep(fs, listing);
      FilteredStep(fs, listing);
      DescriptorsAgreeUnlessUnreadable(fs, last);
    }
  }

  lemma PlainListingInit(fs: FileMap, listing: seq<string>)
    requires listing != [] && PlainListing(fs, listing)
    ensures PlainListing(fs, listing[..|listing| - 1])
    ensures var path := SiblingsPath(Child(CpuBase, listing[|listing| - 1]));
            (!IsCpuDirName(listing[|listing| - 1]) ==> path !in fs) && (path in fs ==> fs[path].Some?)
  {
    var init := listing[..|listing| - 1];
    forall i | 0 <= i < |init|
      ensures init[i] == listing[i]
    {
    }
  }

  /** core_ranks.py's collection is its collection over all but the last entry, followed by the last entry. */
  lemma CoreRanksStep(fs: FileMap, listing: seq<string>)
    requires listing != []
    ensures GroupsOf(CoreRanks.Lookups(fs, listing)) ==
              Visit(GroupsOf(CoreRanks.Lookups(fs, listing[..|listing| - 1])), CoreRanks.Descriptor(fs, listing[|listing| - 1]))
  {
    var ds := CoreRanks.Lookups(fs, listing);
    assert ds[..|ds| - 1] == CoreRanks.Lookups(fs, listing[..|listing| - 1]);
  }

  /** The filtered collection gains the last entry's lookup exactly when the filter keeps it. */
  lemma FilteredStep(fs: FileMap, listing: seq<string>)
    requires listing != []
    ensures var last := listing[|listing| - 1];
            var before := GroupsOf(Lookups(fs, CpuDirs(listing[..|listing| - 1])));
            GroupsOf(Lookups(fs, CpuDirs(listing))) == if IsCpuDirName(last) then Visit(before, Descriptor(fs, last)) else before
  {
    var init := listing[..|listing| - 1];
    var last := listing[|listing| - 1];
    if IsCpuDirName(last) {
      assert CpuDirs(listing) == CpuDirs(init) + [last];
      LookupsSnoc(fs, CpuDirs(init), last);
      GroupsOfSnoc(Lookups(fs, CpuDirs(init)), Descriptor(fs, last));
    } else {
      assert CpuDirs(listing) == CpuDirs(init);
    }
  }

  lemma LookupsSnoc(fs: FileMap, entries: seq<string>, name: string)
    ensures Lookups(fs, entries + [name]) == Lookups(fs, entries) + [Descriptor(fs, name)]
  {
  }

  // ---------------------------------------------------------------------
  // Ranks and frequencies
  // ---------------------------------------------------------------------

  /** `core.rank = get_rank(cpu_path)` for the directory of the first sibling. */
  function Ranked(fs: FileMap, core: CoreInfo): (c: CoreInfo)
    requires core.siblings != []
    ensures c == core.(rank := c.rank)
    ensures c.rank == FirstPresent(RankSources(fs, CpuDir(core.siblings[0])), DefaultRank)
  {
    var cpuPath := CpuDir(core.siblings[0]);
    GetRankIsFirstPresent(fs, cpuPath);
    core.(rank := GetRank(fs, cpuPath))
  }

  /**
    * The two `if` statements of `update_frequencies`: a bound that reads as an
    * integer replaces the stored one, converted by `freq // 1000`; a missing
    * or malformed one leaves the stored bound as it was.
    */
  function WithFrequencies(fs: FileMap, core: CoreInfo): (c: CoreInfo)
    requires core.siblings != []
    ensures c.rank == core.rank && c.siblings == core.siblings
  {
    var cpuPath := CpuDir(core.siblings[0]);
    var minMhz := match ReadInt(fs, MinFreqPath(cpuPath)) case Some(freq) => KhzToMhz(freq) case None => core.minMhz;
    var maxMhz := match ReadInt(fs, MaxFreqPath(cpuPath)) case Some(freq) => KhzToMhz(freq) case None => core.maxMhz;
    core.(minMhz := minMhz, maxMhz := maxMhz)
  }

  /** Each bound is the file's kHz value floored to MHz when it reads as an integer, and the prior bound otherwise. */
  lemma FrequenciesKeepPrior(fs: FileMap, core: CoreInfo)
    requires core.siblings != []
    ensures var c := WithFrequencies(fs, core);
            var freq := ReadInt(fs, MinFreqPath(CpuDir(core.siblings[0])));
            if freq.Some? then c.minMhz * 1000 <= freq.value < c.minMhz * 1000 + 1000 else c.minMhz == core.minMhz
    ensures var c := WithFrequencies(fs, core);
            var freq := ReadInt(fs, MaxFreqPath(CpuDir(core.siblings[0])));
            if freq.Some? then c.maxMhz * 1000 <= freq.value < c.maxMhz * 1000 + 1000 else c.maxMhz == core.maxMhz
  {
  }

  /**
    * The record a fresh tuple ends with is the one core_ranks.py's
    * `update_cores` gives it: both scripts read the same files of the first
    * sibling, and a kept prior bound is the default 0 either way.
    */
  function Record(fs: FileMap, cpus: seq<int>): (c: CoreInfo)
    requires cpus != []
    ensures c == CoreRanks.Populated(fs, NewCore(cpus))
  {
    WithFrequencies(fs, Ranked(fs, NewCore(cpus)))
  }

  /**
    * `update_ranks`: each core in list order gets its rank; a core with no
    * siblings raises IndexError at `core.siblings[0]`, leaving it and every
    * later core untouched.
    */
  method UpdateRanks(fs: FileMap, cores: array<CoreInfo>) returns (err: Option<Error>)
    modifies cores
    ensures err.Some? <==> FirstEmpty(old(cores[..])) < cores.Length
    ensures err.Some? ==> err.value == IndexError
    ensures forall i {:trigger Ranked(fs, old(cores[i]))} :: 0 <= i < FirstEmpty(old(cores[..])) ==> cores[i] == Ranked(fs, old(cores[i]))
    ensures forall i :: FirstEmpty(old(cores[..])) <= i < cores.Length ==> cores[i] == old(cores[i])
  {
    ghost var orig := cores[..];
    ghost var k := FirstEmpty(orig);
    var i := 0;
    while i < cores.Length
      invariant 0 <= i <= k
      invariant forall j {:trigger Ranked(fs, orig[j])} :: 0 <= j < i ==> cores[j] == Ranked(fs, orig[j])
      invariant forall j :: i <= j < cores.Length ==> cores[j] == orig[j]
    {
      if cores[i].siblings == [] {
        return Some(IndexError);
      }
      assert i < k;
      var cpuPath := CpuDir(cores[i].siblings[0]);
      cores[i] := cores[i].(rank := GetRank(fs, cpuPath));
      i := i + 1;
    }
    return None;
  }

  /** `update_frequencies`: the same pass, over the two frequency bounds. */
  method UpdateFrequencies(fs: FileMap, cores: array<CoreInfo>) returns (err: Option<Error>)
    modifies cores
    ensures err.Some? <==> FirstEmpty(old(cores[..])) < cores.Length
    ensures err.Some? ==> err.value == IndexError
    ensures forall i {:trigger WithFrequencies(fs, old(cores[i]))} :: 0 <= i < FirstEmpty(old(cores[..])) ==> cores[i] == WithFrequencies(fs, old(cores[i]))
    ensures forall i :: FirstEmpty(old(cores[..])) <= i < cores.Length ==> cores[i] == old(cores[i])
  {
    ghost var orig := cores[..];
    ghost var k := FirstEmpty(orig);
    var i := 0;
    while i < cores.Length
      invariant 0 <= i <= k
      invariant forall j {:trigger WithFrequencies(fs, orig[j])} :: 0 <= j < i ==> cores[j] == WithFrequencies(fs, orig[j])
      invariant forall j :: i <= j < cores.Length ==> cores[j] == orig[j]
    {
      if cores[i].siblings == [] {
        return Some(IndexError);
      }
      var core := cores[i];
      assert i < k && core == orig[i];
      cores[i] := WithFrequencies(fs, core);
      i := i + 1;
    }
    return None;
  }

  // ---------------------------------------------------------------------
  // main
  // ---------------------------------------------------------------------

  /** The printed table: one record per tuple, each read from its first sibling, ordered by `(-rank, siblings)`. */
  predicate Table(fs: FileMap, groups: set<seq<int>>, s: seq<CoreInfo>) {
    OnePerGroup(s, groups) && SortedByKey(s) &&
    forall i :: 0 <= i < |s| ==> s[i].siblings != [] && s[i] == Record(fs, s[i].siblings)
  }

  /**
    * `main` up to its print: the first error of the sibling lists, then
    * IndexError when some list expands to nothing (a reversed range such as
    * "3-1"); otherwise the table.
    */
  method Run(fs: FileMap, listing: seq<string>) returns (r: Result<array<CoreInfo>, Error>)
    ensures GroupsOf(Lookups(fs, CpuDirs(listing))).Err? ==> r == Err(GroupsOf(Lookups(fs, CpuDirs(listing))).error)
    ensures GroupsOf(Lookups(fs, CpuDirs(listing))).Ok? ==>
              (r.Err? <==> [] in GroupsOf(Lookups(fs, CpuDirs(listing))).value) && (r.Err? ==> r.error == IndexError)
    ensures r.Ok? ==> fresh(r.value) && Table(fs, GroupsOf(Lookups(fs, CpuDirs(listing))).value, r.value[..])
  {
    var cores := GetCoreCpus(fs, listing);
    if cores.Err? {
      return Err(cores.error);
    }
    var a := cores.value;
    ghost var groups := GroupsOf(Lookups(fs, CpuDirs(listing))).value;
    ghost var created := a[..];
    EmptyGroupIsFirstEmpty(created, groups);
    var err := UpdateRanks(fs, a);
    if err.Some? {
      return Err(err.value);
    }
    ghost var ranked := a[..];
    RankedKeepsSiblings(fs, created, ranked);
    // Cannot fail: every core has a first sibling.
    var _ := UpdateFrequencies(fs, a);
    UpdatedRecords(fs, groups, created, ranked, a[..]);
    ghost var populated := a[..];
    SortByKey(a);
    SortedTable(fs, groups, populated, a[..]);
    return Ok(a);
  }

  lemma RankedKeepsSiblings(fs: FileMap, created: seq<CoreInfo>, ranked: seq<CoreInfo>)
    requires FirstEmpty(created) == |created| == |ranked|
    requires forall j :: 0 <= j < |created| ==> ranked[j] == Ranked(fs, created[j])
    ensures FirstEmpty(ranked) == |ranked|
  {
    forall j | 0 <= j < |ranked|
      ensures ranked[j].siblings != []
    {
      assert ranked[j].siblings == created[j].siblings;
    }
  }

  /** After both passes every core holds the record of its tuple, still one per group. */
  lemma UpdatedRecords(fs: FileMap, groups: set<seq<int>>, created: seq<CoreInfo>, ranked: seq<CoreInfo>, final: seq<CoreInfo>)
    requires OnePerGroup(created, groups) && AllNew(created)
    requires FirstEmpty(created) == |created| == |ranked| == |final|
    requires forall j :: 0 <= j < |created| ==> ranked[j] == Ranked(fs, created[j])
    requires forall j :: 0 <= j < |ranked| ==> ranked[j].siblings != [] && final[j] == WithFrequencies(fs, ranked[j])
    ensures OnePerGroup(final, groups)
    ensures forall i :: 0 <= i < |final| ==> final[i].siblings != [] && final[i] == Record(fs, final[i].siblings)
  {
    forall i | 0 <= i < |final|
      ensures final[i].siblings == created[i].siblings
      ensures final[i].siblings != [] && final[i] == Record(fs, final[i].siblings)
    {
      assert created[i] == NewCore(created[i].siblings);
    }
    SameSiblingsKeepShape(created, final, groups);
  }

  lemma SortedTable(fs: FileMap, groups: set<seq<int>>, s: seq<CoreInfo>, t: seq<CoreInfo>)
    requires OnePerGroup(s, groups)
    requires forall i :: 0 <= i < |s| ==> s[i].siblings != [] && s[i] == Record(fs, s[i].siblings)
    requires multiset(t) == multiset(s) && SortedByKey(t)
    ensures Table(fs, groups, t)
  {
    PermutationKeepsGroups(s, t, groups);
    forall k | 0 <= k < |t|
      ensures t[k].siblings != [] && t[k] == Record(fs, t[k].siblings)
    {
      var m :| 0 <= m < |s| && s[m] == t[k];
    }
  }

  /**
    * The table does not depend on the order of the directory listing or of
    * the set: one set of tuples gives one table.
    */
  lemma TableIsUnique(fs: FileMap, groups: set<seq<int>>, s: seq<CoreInfo>, t: seq<CoreInfo>)
    requires Table(fs, groups, s) && Table(fs, groups, t)
    ensures s == t
  {
    forall x
      ensures x in s <==> x in t
    {
      if x in s {
        InOtherTable(fs, groups, s, t, x);
      }
      if x in t {
        InOtherTable(fs, groups, t, s, x);
      }
    }
    SortedIsUnique(s, t);
  }

  lemma InOtherTable(fs: FileMap, groups: set<seq<int>>, s: seq<CoreInfo>, t: seq<CoreInfo>, x: CoreInfo)
    requires Table(fs, groups, s) && Table(fs, groups, t)
    requires x in s
    ensures x in t
  {
    var i :| 0 <= i < |s| && s[i] == x;
    assert x.siblings in groups;
    var j :| 0 <= j < |t| && SiblingTuples(t)[j] == x.siblings;
    assert t[j] == x;
  }

  /**
    * core_ranks.py with its sort moved after `update_cores` prints exactly
    * the table core-ranker.py prints for the same tuples.
    */
  lemma RankedReportIsTable(fs: FileMap, groups: set<seq<int>>, s: seq<CoreInfo>, t: seq<CoreInfo>)
    requires CoreRanks.RankedShape(fs, groups, s) && Table(fs, groups, t)
    ensures s == t
  {
    assert Table(fs, groups, s);
    TableIsUnique(fs, groups, s, t);
  }
}
