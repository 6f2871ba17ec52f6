/**
  * `get_rank` and the kHz-to-MHz frequency reads, over one CPU directory
  * (`CPU_BASE / f"cpu{n}"`) of the sysfs snapshot.
  */
module Ranking {
  import opened Wrappers
  import opened Text
  import opened Sysfs

  /** The value used when no rank source is present. */
  const DefaultRank: int := 100

  function HighestPerfPath(cpuPath: string): string { Child(cpuPath, "acpi_cppc/highest_perf") }
  function ItmtScorePath(cpuPath: string): string { Child(cpuPath, "topology/itmt_score") }
  function BaseFrequencyPath(cpuPath: string): string { Child(cpuPath, "cpufreq/base_frequency") }
  function CoreIdPath(cpuPath: string): string { Child(cpuPath, "topology/core_id") }
  function MinFreqPath(cpuPath: string): string { Child(cpuPath, "cpufreq/cpuinfo_min_freq") }
  function MaxFreqPath(cpuPath: string): string { Child(cpuPath, "cpufreq/cpuinfo_max_freq") }

  /** Python's `khz // 1000`: the whole number of MHz, rounded toward minus infinity. */
  function KhzToMhz(khz: int): (mhz: int)
    ensures mhz * 1000 <= khz < mhz * 1000 + 1000
  {
    khz / 1000
  }

  /**
    * `get_rank`: AMD CPPC `highest_perf`, else the Intel ITMT score, else the
    * Intel base frequency in MHz, else the topology `core_id`, else 100.
    */
  function GetRank(fs: FileMap, cpuPath: string): (rank: int)
    ensures ReadInt(fs, HighestPerfPath(cpuPath)).Some? ==> rank == ReadInt(fs, HighestPerfPath(cpuPath)).value
    ensures ReadInt(fs, HighestPerfPath(cpuPath)).None? && ReadInt(fs, ItmtScorePath(cpuPath)).None? &&
            ReadInt(fs, BaseFrequencyPath(cpuPath)).None? && ReadInt(fs, CoreIdPath(cpuPath)).None? ==>
              rank == DefaultRank
  {
    match ReadInt(fs, HighestPerfPath(cpuPath))
    case Some(rank) => rank
    case None =>
      match ReadInt(fs, ItmtScorePath(cpuPath))
      case Some(rank) => rank
      case None =>
        match ReadInt(fs, BaseFrequencyPath(cpuPath))
        case Some(freq) => KhzToMhz(freq)
        case None =>
          match ReadInt(fs, CoreIdPath(cpuPath))
          case Some(rank) => rank
          case None => DefaultRank
  }

  /** The four rank sources in priority order, each already in the unit `get_rank` returns. */
  function RankSources(fs: FileMap, cpuPath: string): (sources: seq<Option<int>>)
    ensures |sources| == 4
  {
    var base := ReadInt(fs, BaseFrequencyPath(cpuPath));
    [ ReadInt(fs, HighestPerfPath(cpuPath)),
      ReadInt(fs, ItmtScorePath(cpuPath)),
      if base.Some? then Some(KhzToMhz(base.value)) else None,
      ReadInt(fs, CoreIdPath(cpuPath)) ]
  }

  /** A generic first-match combinator: the first present value, or the default. */
  function FirstPresent(sources: seq<Option<int>>, default: int): int {
    if sources == [] then default
    else if sources[0].Some? then sources[0].value
    else FirstPresent(sources[1..], default)
  }

  /** FirstPresent returns the value of the earliest present source, or the default when none is present. */
  lemma {:induction false} FirstPresentIsEarliest(sources: seq<Option<int>>, default: int)
    ensures (forall i :: 0 <= i < |sources| ==> sources[i].None?) ==> FirstPresent(sources, default) == default
    ensures forall k :: 0 <= k < |sources| && sources[k].Some? && (forall i :: 0 <= i < k ==> sources[i].None?) ==>
              FirstPresent(sources, default) == sources[k].value
  {
    if sources != [] {
      FirstPresentIsEarliest(sources[1..], default);
      forall k | 0 < k < |sources| && sources[k].Some? && (forall i :: 0 <= i < k ==> sources[i].None?)
        ensures FirstPresent(sources, default) == sources[k].value
      {
        assert sources[1..][k - 1] == sources[k];
        forall i | 0 <= i < k - 1
          ensures sources[1..][i].None?
        {
          assert sources[1..][i] == sources[i + 1];
        }
      }
      if forall i :: 0 <= i < |sources| ==> sources[i].None? {
        forall i | 0 <= i < |sources| - 1
          ensures sources[1..][i].None?
        {
          assert sources[1..][i] == sources[i + 1];
        }
      }
    }
  }

  /** `get_rank` is exactly the first-match over its four sources with default 100. */
  lemma GetRankIsFirstPresent(fs: FileMap, cpuPath: string)
    ensures GetRank(fs, cpuPath) == FirstPresent(RankSources(fs, cpuPath), DefaultRank)
  {
    FirstPresentOfFour(RankSources(fs, cpuPath), DefaultRank);
  }

  lemma FirstPresentOfFour(s: seq<Option<int>>, default: int)
    requires |s| == 4
    ensures FirstPresent(s, default) ==
              if s[0].Some? then s[0].value
              else if s[1].Some? then s[1].value
              else if s[2].Some? then s[2].value
              else if s[3].Some? then s[3].value
              else default
  {
    var t1 := s[1..];
    var t2 := t1[1..];
    var t3 := t2[1..];
    assert t1[0] == s[1] && t2[0] == s[2] && t3[0] == s[3] && t3[1..] == [];
    assert FirstPresent(t3, default) == if s[3].Some? then s[3].value else default;
    assert FirstPresent(t2, default) == if s[2].Some? then s[2].value else FirstPresent(t3, default);
    assert FirstPresent(t1, default) == if s[1].Some? then s[1].value else FirstPresent(t2, default);
  }

  /**
    * Sources after the first present one are never consulted: two snapshots
    * that agree on the sources up to and including the first present one give
    * the same rank, whatever the later files hold.
    */
  lemma RankIgnoresLaterSources(fs1: FileMap, fs2: FileMap, cpuPath: string, k: nat)
    requires k < 4
    requires RankSources(fs1, cpuPath)[k].Some?
    requires forall i :: 0 <= i <= k ==> RankSources(fs1, cpuPath)[i] == RankSources(fs2, cpuPath)[i]
    ensures GetRank(fs1, cpuPath) == GetRank(fs2, cpuPath)
  {
    GetRankIsFirstPresent(fs1, cpuPath);
    GetRankIsFirstPresent(fs2, cpuPath);
    FirstPresentAgrees(RankSources(fs1, cpuPath), RankSources(fs2, cpuPath), k, DefaultRank);
  }

  /** Two source lists that agree up to a present entry give the same first match. */
  lemma FirstPresentAgrees(s1: seq<Option<int>>, s2: seq<Option<int>>, k: nat, default: int)
    requires k < |s1| && k < |s2| && s1[k].Some?
    requires forall i :: 0 <= i <= k ==> s1[i] == s2[i]
    ensures FirstPresent(s1, default) == FirstPresent(s2, default)
  {
    FirstPresentIsEarliest(s1, default);
    FirstPresentIsEarliest(s2, default);
    FirstSome(s1, k);
    var first :| 0 <= first <= k && s1[first].Some? && forall i :: 0 <= i < first ==> s1[i].None?;
    assert s2[first].Some? && forall i :: 0 <= i < first ==> s2[i].None?;
  }

  lemma {:induction false} FirstSome(s: seq<Option<int>>, k: nat)
    requires k < |s| && s[k].Some?
    ensures exists first :: 0 <= first <= k && s[first].Some? && forall i :: 0 <= i < first ==> s[i].None?
  {
    if k > 0 && exists j :: 0 <= j < k && s[j].Some? {
      var j :| 0 <= j < k && s[j].Some?;
      FirstSome(s, j);
    } else {
      assert forall i :: 0 <= i < k ==> s[i].None?;
    }
  }

  /**
    * `get_min_max_frequencies`: each bound read on its own and converted by
    * `freq // 1000`; a missing or malformed bound stays 0, and min <= max is
    * not enforced.
    */
  function MinMaxFrequencies(fs: FileMap, cpuPath: string): (r: (int, int))
    ensures ReadInt(fs, MinFreqPath(cpuPath)).Some? ==>
              r.0 * 1000 <= ReadInt(fs, MinFreqPath(cpuPath)).value < r.0 * 1000 + 1000
    ensures ReadInt(fs, MinFreqPath(cpuPath)).None? ==> r.0 == 0
    ensures ReadInt(fs, MaxFreqPath(cpuPath)).Some? ==>
              r.1 * 1000 <= ReadInt(fs, MaxFreqPath(cpuPath)).value < r.1 * 1000 + 1000
    ensures ReadInt(fs, MaxFreqPath(cpuPath)).None? ==> r.1 == 0
  {
    var minMhz := match ReadInt(fs, MinFreqPath(cpuPath)) case Some(freq) => KhzToMhz(freq) case None => 0;
    var maxMhz := match ReadInt(fs, MaxFreqPath(cpuPath)) case Some(freq) => KhzToMhz(freq) case None => 0;
    (minMhz, maxMhz)
  }

  /** `get_rank` reads nothing but its four sources. */
  lemma SameReadsSameRank(fs1: FileMap, fs2: FileMap, cpuPath: string)
    requires ReadStr(fs1, HighestPerfPath(cpuPath)) == ReadStr(fs2, HighestPerfPath(cpuPath))
    requires ReadStr(fs1, ItmtScorePath(cpuPath)) == ReadStr(fs2, ItmtScorePath(cpuPath))
    requires ReadStr(fs1, BaseFrequencyPath(cpuPath)) == ReadStr(fs2, BaseFrequencyPath(cpuPath))
    requires ReadStr(fs1, CoreIdPath(cpuPath)) == ReadStr(fs2, CoreIdPath(cpuPath))
    ensures GetRank(fs1, cpuPath) == GetRank(fs2, cpuPath)
  {
  }

  /** `get_min_max_frequencies` reads nothing but its two files. */
  lemma SameReadsSameFrequencies(fs1: FileMap, fs2: FileMap, cpuPath: string)
    requires ReadStr(fs1, MinFreqPath(cpuPath)) == ReadStr(fs2, MinFreqPath(cpuPath))
    requires ReadStr(fs1, MaxFreqPath(cpuPath)) == ReadStr(fs2, MaxFreqPath(cpuPath))
    ensures MinMaxFrequencies(fs1, cpuPath) == MinMaxFrequencies(fs2, cpuPath)
  {
  }

  /** 3800000 kHz is 3800 MHz and 3799999 kHz is 3799 MHz: the conversion truncates. */
  lemma KhzToMhzExamples()
    ensures KhzToMhz(3800000) == 3800 && KhzToMhz(3799999) == 3799 && KhzToMhz(-1) == -1
  {
  }

  /** A base frequency of 2600000 kHz alone ranks as 2600. */
  lemma RankFromBaseFrequencyOnly(fs: FileMap, cpuPath: string)
    requires ReadInt(fs, HighestPerfPath(cpuPath)).None? && ReadInt(fs, ItmtScorePath(cpuPath)).None?
    requires BaseFrequencyPath(cpuPath) in fs && fs[BaseFrequencyPath(cpuPath)] == Some(ShowInt(2600000) + "\n")
    ensures GetRank(fs, cpuPath) == 2600
  {
    ReadIntOfRendered(fs, BaseFrequencyPath(cpuPath), 2600000);
  }
}
