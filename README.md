# core-ranker in Dafny

A model of the two scripts of core-ranker. Both read the Linux CPU topology
from sysfs and print one row per physical core: its rank, its SMT sibling
ids, and its minimum and maximum frequency in MHz.

- `core_ranks.py` also prints a summary parsed from `/proc/cpuinfo` and
  cpufreq policy 0: the model name, the governors, the driver and the turbo
  state.
- `core-ranker.py` prints only the core table, and prints it fastest core
  first.

The sysfs tree is a value, `Sysfs.FileMap`, which maps a path to its text.
A path that is not a key does not exist. A key mapped to `None` exists but
cannot be read, as with a directory or a driver that refuses the read. The
directory listing is a parameter (`entries` / `listing`). The Python
exceptions that escape the scripts are results: `ValueError` from a
malformed sibling list, `OSError` from an unreadable file that the script
does not guard, and `IndexError` from a core without siblings.

Modules:

| module | file | what it holds |
|---|---|---|
| `Wrappers` | wrappers.dfy | `Option`, `Result` |
| `Text` | text.dfy | `str.strip`, `str.split`, `int()` and `f"{n}"` |
| `Sysfs` | sysfs.dfy | the file map, `read_str` and `read_int` |
| `Siblings` | siblings.dfy | sibling-list expansion, `sorted` and tuple order |
| `Ranking` | ranking.dfy | `get_rank` and the frequency reads |
| `Cores` | cores.dfy | shared by both scripts: the `CoreInfo` record, the sort by `(-rank, siblings)` and the deduplicating set of tuples |
| `CoreRanks` | core_ranks.dfy | `core_ranks.py`: `get_cpu_info`, `get_core_cpus`, `update_cores`, `main` |
| `CoreRanker` | core_ranker.dfy | `core-ranker.py`: `get_core_cpus`, `update_ranks`, `update_frequencies`, `main` |

The two pipelines are modelled separately, as they are written. They differ
in four ways:

- Which entries are visited. `core-ranker.py` keeps only names matching
  `cpu\d+`.
- What an unreadable sibling list does. `core_ranks.py` skips the entry;
  `core-ranker.py` raises `OSError`.
- Whether a frequency pass keeps the old bound. The `core-ranker.py` pass
  keeps the prior bound when a file is absent. The `core_ranks.py` pass
  always resets both bounds to 0 first.
- Where the sort happens. `core_ranks.py` sorts in `get_core_cpus`, while
  every rank is still 0. `core-ranker.py` sorts after ranking.

The lemmas `CoreRanker.SameGroupsAsCoreRanks`, `CoreRanker.Record` and
`CoreRanker.RankedReportIsTable` give conditions under which the two
pipelines agree. `SameGroupsAsCoreRanks` states a sufficient condition only:
a listing where a dropped entry such as `cpufreq` holds a sibling list of its
own can still give both scripts the same tuples.

Three behaviours of the scripts that are easy to miss:

- A CPU without a sibling list is skipped, not given a singleton group.
- Expanding a list keeps duplicate ids. `"0,0-1"` is `(0, 0, 1)`, because
  `sorted` does not deduplicate.
- A malformed sibling list raises `ValueError` and aborts the run. In
  `core-ranker.py`, so does a sibling list that exists but cannot be opened.

## Model

| member | source | states |
|---|---|---|
| `Text.Strip` | core_ranks.py:67 | `strip()` never lengthens the text, and leaves nothing exactly when the text is all whitespace |
| `Text.StripEmpty` | core_ranks.py:67 | what `strip()` leaves has no whitespace at either end |
| `Text.StripUnicodeSpaces` | core_ranks.py:90 | Unicode spaces such as U+00A0 and U+3000 are stripped as Python strips them |
| `Text.StripLeft` | core_ranks.py:67 | `lstrip()` is the longest suffix not starting with whitespace, and what it removes is all whitespace |
| `Text.StripRight` | core_ranks.py:67 | `rstrip()` is the longest prefix not ending with whitespace, and what it removes is all whitespace |
| `Text.StripRemovesPadding` | core_ranks.py:67 | `strip()` of whitespace + unpadded text + whitespace gives back exactly the text |
| `Text.StripUnpadded` | core_ranks.py:67 | `strip()` leaves text without surrounding whitespace unchanged |
| `Text.StripNewline` | core_ranks.py:67 | stripping a sysfs line's trailing newline gives back its text |
| `Text.Split` | core_ranks.py:119 | `split(sep)` never returns an empty list, no part holds the separator, and joining the parts gives back the input |
| `Text.SplitAfterPrefix` | core_ranks.py:119 | splitting p + t, where p has no separator, glues p onto the first part of t's split |
| `Text.SplitOfJoin` | core_ranks.py:102 | splitting a join of separator-free parts gives back those parts |
| `Text.ParseDecimal` | core_ranks.py:67 | `int()` accepts only an optional sign followed by digits, and without a '-' the value is non-negative |
| `Text.PyInt` | core_ranks.py:67 | `int()` of blank text is a ValueError, and text without a '-' never reads as negative |
| `Text.DigitsValueOfShowNat` | core_ranks.py:67 | the digits of `f"{n}"` denote n |
| `Text.ParseShowInt` | core_ranks.py:67 | `int(f"{n}") == n` for every integer n |
| `Text.ParseShowNat` | core_ranks.py:67 | `int(f"{n}") == n` for every n >= 0 |
| `Text.ParseNegativeShowNat` | core_ranks.py:67 | `int("-" + f"{m}") == -m` |
| `Text.PyIntOfShowNat` | core_ranks.py:67 | `int()` of a rendered natural number gives it back |
| `Text.PyIntOfPaddedShowInt` | core_ranks.py:67 | `int()` ignores whitespace around a rendered integer |
| `Sysfs.ReadStr` | core_ranks.py:55-60 | `read_str` gives the text exactly when the file exists and can be read, and absence otherwise |
| `Sysfs.ReadInt` | core_ranks.py:63-71 | `read_int` gives a value only when `read_str` does |
| `Sysfs.ReadIntIsInt` | core_ranks.py:63-71 | `read_int` of a readable file is `int()` of its whole text |
| `Sysfs.StripTwice` | core_ranks.py:67 | `strip()` is idempotent, so stripping before `int()` changes nothing |
| `Sysfs.ReadIntOfRendered` | core_ranks.py:63-71 | a file holding "n\n" reads back as n |
| `Sysfs.ReadIntOfMalformed` | core_ranks.py:63-71 | a file whose stripped text has a non-digit after the sign position reads as absent, like a missing file |
| `Siblings.Range` | core_ranks.py:122 | `range(a, b + 1)` holds a..b in order, and is empty when a > b |
| `Siblings.Insert` | core_ranks.py:125 | inserting into an ascending list keeps it ascending and adds exactly that one element |
| `Siblings.ParsePart` | core_ranks.py:120-124 | a part that parses denotes a run of consecutive ids, and a part without '-' exactly one id |
| `Siblings.SortInts` | core_ranks.py:125 | `sorted(threads)` is ascending and a permutation of its input, keeping duplicates |
| `Siblings.SortIntsOfAscending` | core_ranks.py:125 | sorting an ascending list returns it unchanged |
| `Siblings.ParseSiblingList` | core_ranks.py:119-125 | the tuple is ascending, exists exactly when every part parses, and is a permutation of the parts' expansions in order |
| `Siblings.ConcatFailureSticks` | core_ranks.py:119-124 | once a part raises, the later parts do not matter |
| `Siblings.ExpandPart` | core_ranks.py:120-124 | the loop body for one part equals the part's expansion: a range for "a-b", else one id, ValueError otherwise |
| `Siblings.CollectThreads` | core_ranks.py:118-124 | the `threads` loop equals the concatenation of the parts' expansions, failing at the first bad part |
| `Siblings.ExpandSiblingList` | core_ranks.py:118-125 | the loop and the sort compute exactly `ParseSiblingList` |
| `Siblings.ConcatSound` | core_ranks.py:118-124 | every expanded id comes from some part |
| `Siblings.ConcatComplete` | core_ranks.py:118-124 | every id some part denotes is in the expansion |
| `Siblings.ExpandPartsMembers` | core_ranks.py:118-124 | an id is in the expansion exactly when one of the parts denotes it |
| `Siblings.ParsePartNonNegative` | core_ranks.py:120-124 | a part never yields a negative id, because a '-' always splits it as a range |
| `Siblings.ParseSiblingListNonNegative` | core_ranks.py:119-125 | no sibling list yields a negative id |
| `Siblings.RangeTextPart` | core_ranks.py:120-122 | the part "a-b" expands to a..b |
| `Siblings.SplitRangeText` | core_ranks.py:121 | "a-b" splits at '-' into the two rendered numbers |
| `Siblings.RangeDescriptor` | core_ranks.py:119-125 | the kernel's "a-b\n" gives exactly the ids a..b |
| `Siblings.SingleDescriptor` | core_ranks.py:119-125 | the kernel's "n\n" gives the tuple (n,) |
| `Siblings.OnePartDescriptor` | core_ranks.py:119-125 | a one-part list with an ascending expansion gives that expansion unchanged |
| `Siblings.LexLe` | core_ranks.py:129 | Python's tuple `<=`: a prefix comes first, and the first differing element decides |
| `Siblings.LexLeTotal` | core_ranks.py:129 | Python's tuple comparison is total |
| `Siblings.LexLeTransitive` | core_ranks.py:129 | Python's tuple comparison is transitive |
| `Siblings.LexLeAntisymmetric` | core_ranks.py:129 | tuples that compare `<=` both ways are equal |
| `Ranking.KhzToMhz` | core_ranks.py:143 | `khz // 1000` is the floor: mhz*1000 <= khz < mhz*1000 + 1000 |
| `Ranking.KhzToMhzExamples` | core_ranks.py:143 | 3800000 and 3799999 kHz are 3800 and 3799 MHz, and -1 kHz floors to -1 |
| `Ranking.GetRank` | core_ranks.py:133-147 | `highest_perf` wins whenever it reads, and with no source readable the rank is 100 |
| `Ranking.RankSources` | core_ranks.py:133-147 | the four rank sources in priority order |
| `Ranking.FirstPresentIsEarliest` | core_ranks.py:133-147 | the first-match combinator returns the earliest present source, or the default when none is present |
| `Ranking.GetRankIsFirstPresent` | core_ranks.py:133-147 | `get_rank` is the first match over highest_perf, itmt_score, base_frequency // 1000 and core_id, with default 100 |
| `Ranking.RankIgnoresLaterSources` | core_ranks.py:133-147 | sources after the first present one are never consulted |
| `Ranking.MinMaxFrequencies` | core_ranks.py:150-159 | each bound is the floor of its kHz reading, or 0 when absent or malformed, with no min <= max check |
| `Ranking.SameReadsSameRank` | core_ranks.py:133-147 | the rank depends only on the four source files |
| `Ranking.SameReadsSameFrequencies` | core_ranks.py:150-159 | the bounds depend only on the two frequency files |
| `Ranking.RankFromBaseFrequencyOnly` | core_ranks.py:141-143 | a base frequency of 2600000 kHz alone ranks 2600 |
| `Cores.NewCore` | core_ranks.py:127 | a fresh record has the tuple and rank and bounds 0 |
| `Cores.KeyLe` | core_ranks.py:129 | the higher rank comes first, and at equal rank a sibling tuple comes before its extensions |
| `Cores.KeyLeTotal` | core_ranks.py:129 | the `(-rank, siblings)` key order is total |
| `Cores.KeyLeTransitive` | core_ranks.py:129 | the key order is transitive |
| `Cores.KeyLeAntisymmetric` | core_ranks.py:129 | equal keys mean equal rank and siblings |
| `Cores.SortByKey` | core_ranks.py:129 | `cores.sort(key=...)` leaves the list sorted by `(-rank, siblings)` and a permutation of the input |
| `Cores.InsertLast` | core_ranks.py:129 | one insertion step extends the sorted prefix by one and permutes the array |
| `Cores.GroupsOf` | core_ranks.py:112-125 | the `unique_cores` set never holds more tuples than entries were visited |
| `Cores.GroupsOfStep` | core_ranks.py:114-125 | visiting entry i is one step of the collection |
| `Cores.VisitEntry` | core_ranks.py:114-125 | a skipped entry adds nothing, a found tuple is added, and a failing entry ends the collection with its error |
| `Cores.GroupsOfFailureSticks` | core_ranks.py:114-125 | once an entry raises, later entries change nothing |
| `Cores.GroupsOfSuccess` | core_ranks.py:114-125 | the collection succeeds exactly when no entry fails, and then holds exactly the found tuples, duplicates collapsed |
| `Cores.GroupsOfFirstFailure` | core_ranks.py:114-125 | a failing collection fails with the first failing entry's error |
| `Cores.FromGroups` | core_ranks.py:127 | one fresh default record per tuple, no tuple twice and no other tuple, in an unspecified order |
| `Cores.PermutationKeepsGroups` | core_ranks.py:127-129 | sorting keeps one record per tuple |
| `Cores.SortedIsUnique` | core_ranks.py:129 | two sorted lists of the same records with distinct tuples are equal, so the set's iteration order cannot show |
| `Cores.FirstEmpty` | core_ranks.py:165 | the index where `siblings[0]` first raises IndexError, or the length when it never does |
| `Cores.EmptyGroupIsFirstEmpty` | core_ranks.py:165 | the pass raises exactly when an empty tuple was collected |
| `CoreRanks.IndexOf` | core_ranks.py:79 | the first occurrence of a character at or after a position |
| `CoreRanks.Lines` | core_ranks.py:81 | there are no more lines than characters, and no lines exactly for empty text |
| `CoreRanks.LinesRoundTrip` | core_ranks.py:81 | `for line in f` splits the text into lines that join back to it |
| `CoreRanks.LinesShape` | core_ranks.py:81 | each line is non-empty, has no newline before its end, and all but the last end with one |
| `CoreRanks.KeyEnd` | core_ranks.py:79 | where `[^:\t]*` stops: the first ':' or tab |
| `CoreRanks.CpuinfoMatch` | core_ranks.py:79-82 | `pattern.match(line)` succeeds only on a line with ':'; its key has no ':' or tab and its value no newline |
| `CoreRanks.CpuinfoMatchOfField` | core_ranks.py:79-82 | the kernel's "key\t: value\n" matches with exactly that key and value |
| `CoreRanks.Fields` | core_ranks.py:81-82 | the match of each line, in order |
| `CoreRanks.ModelNameOf` | core_ranks.py:81-90 | the model name read from the lines is always stripped, given a stripped starting value |
| `CoreRanks.ModelNameStopsAtFirstMismatch` | core_ranks.py:84-86 | nothing after the first non-matching line is read, so only the first processor block counts |
| `CoreRanks.ModelNameLastWins` | core_ranks.py:88-90 | within the block the last "model name" line wins, stripped |
| `CoreRanks.ModelNameKept` | core_ranks.py:76-90 | a block without "model name" leaves "unknown" |
| `CoreRanks.ReadModelName` | core_ranks.py:80-90 | the loop computes the model name of the matching prefix |
| `CoreRanks.Boost` | core_ranks.py:92-95 | the turbo state is from `boost` (1 = on) when it reads, else from `no_turbo` (0 = on), else "unknown" |
| `CoreRanks.BoostPolarity` | core_ranks.py:94-95 | `no_turbo` = 1 means turbo is off |
| `CoreRanks.StrippedOr` | core_ranks.py:97-98 | the stripped file text, or the default when the file does not read |
| `CoreRanks.Governors` | core_ranks.py:100-103 | the governor tuple is never empty |
| `CoreRanks.GovernorsOfJoin` | core_ranks.py:100-103 | the kernel's space-separated governors line reads back as the names in order |
| `CoreRanks.StripAllUnpadded` | core_ranks.py:102 | stripping each word leaves the words unchanged |
| `CoreRanks.JoinUnpadded` | core_ranks.py:102 | a space-joined list of words is non-empty and unpadded |
| `CoreRanks.GovernorsOfEmptyFile` | core_ranks.py:100-103 | an empty governors file gives one empty name |
| `CoreRanks.GetCpuInfo` | core_ranks.py:74-107 | only an unreadable /proc/cpuinfo raises (OSError); otherwise each field is its source's value or its default, which `CpuInfoOf` collects |
| `CoreRanks.Descriptor` | core_ranks.py:114-125 | an entry is skipped exactly when its list does not read, raises only ValueError, and otherwise yields an ascending tuple |
| `CoreRanks.Lookups` | core_ranks.py:114-125 | one lookup per entry, in listing order, each that entry's `Descriptor`; the same map as `CoreRanker.Lookups` over this script's `Descriptor` |
| `CoreRanks.ReadDescriptor` | core_ranks.py:115-125 | the loop body for one entry computes its lookup |
| `CoreRanks.CollectGroups` | core_ranks.py:112-125 | the `unique_cores` loop computes the collection over the entries |
| `CoreRanks.EqualRanksSortBySiblings` | core_ranks.py:127-129 | with every rank 0 the key order is ascending sibling order |
| `CoreRanks.GetCoreCpus` | core_ranks.py:110-130 | one fresh record per distinct tuple, in strictly ascending sibling order, or the collection's error |
| `CoreRanks.Populated` | core_ranks.py:164-167 | updating a core keeps its siblings |
| `CoreRanks.PopulatedReadsFirstSiblingOnly` | core_ranks.py:162-167 | only the first sibling's six files are read |
| `CoreRanks.UpdateCores` | core_ranks.py:162-167 | cores before the first empty tuple are populated, in order; IndexError exactly when an empty tuple exists; the rest are untouched |
| `CoreRanks.Report` | core_ranks.py:182-187 | the errors in order (cpuinfo OSError, the first sibling-list error, IndexError); on success the whole `CpuInfoOf` summary and one populated record per tuple in ascending sibling order |
| `CoreRanks.UpdatedShape` | core_ranks.py:186-187 | populating keeps one record per tuple and the ascending order |
| `CoreRanks.TwoCoresGroups` | core_ranks.py:114-125 | sibling lists "0\n" and "1\n" collect to {(0,), (1,)} |
| `CoreRanks.RankOfSingle` | core_ranks.py:136-137 | a core whose `highest_perf` holds r ranks r |
| `CoreRanks.ReportNotRankOrdered` | core_ranks.py:127-129 | with highest_perf 1 on cpu0 and 2 on cpu1, the printed table puts rank 1 before rank 2 and is not in key order |
| `CoreRanks.RankedReport` | core_ranks.py:182-187 | `main` with the sort moved after `update_cores`: the same errors, and on success the whole `CpuInfoOf` summary and one populated record per tuple sorted by `(-rank, siblings)` |
| `CoreRanks.SortedKeepsRecords` | core_ranks.py:129 | sorting populated records keeps each tuple's record |
| `CoreRanks.RankedReportPutsFasterFirst` | core_ranks.py:128 | on the same two cores the corrected order prints rank 2 first |
| `CoreRanker.CpuDirs` | core-ranker.py:39 | the filter never adds names |
| `CoreRanker.CpuDirsAppend` | core-ranker.py:39 | the filter keeps listing order: filtering a concatenation filters each part |
| `CoreRanker.CpuDirsMembers` | core-ranker.py:39 | exactly the listed names matching `cpu\d+` are kept |
| `CoreRanker.CpuDirNameExamples` | core-ranker.py:39 | cpu0 and cpu15 pass; cpu, cpufreq, cpuidle, smt and online do not |
| `CoreRanker.Descriptor` | core-ranker.py:42-53 | skipped exactly when the list does not exist; OSError exactly when it exists but cannot be read; otherwise ValueError or an ascending tuple |
| `CoreRanker.DescriptorsAgreeUnlessUnreadable` | core-ranker.py:42-53 | both scripts treat a sibling list alike except an unreadable one, which core_ranks.py skips and core-ranker.py raises on |
| `CoreRanker.Lookups` | core-ranker.py:41-53 | one lookup per filtered entry, in order, each that entry's `Descriptor`; the same map as `CoreRanks.Lookups` over this script's `Descriptor` |
| `CoreRanker.ReadDescriptor` | core-ranker.py:42-53 | the loop body for one entry computes its lookup |
| `CoreRanker.ReadLookup` | core-ranker.py:42-53 | the loop body for the i-th filtered entry computes that entry's lookup |
| `CoreRanker.CollectGroups` | core-ranker.py:38-53 | the loop over the filtered listing computes the collection |
| `CoreRanker.GetCoreCpus` | core-ranker.py:35-57 | one fresh default record per distinct tuple, unsorted, or the collection's error |
| `CoreRanker.SameGroupsAsCoreRanks` | core-ranker.py:39-53 | when dropped entries have no list and every list reads, both scripts collect the same tuples or raise the same error |
| `CoreRanker.Ranked` | core-ranker.py:83-85 | only the rank changes, and it is the first present of the four sources, default 100 |
| `CoreRanker.WithFrequencies` | core-ranker.py:89-94 | the rank and siblings are kept |
| `CoreRanker.FrequenciesKeepPrior` | core-ranker.py:91-94 | a bound that reads is replaced by its floor in MHz; an absent or malformed one keeps its prior value |
| `CoreRanker.Record` | core-ranker.py:109-111 | after both passes a fresh tuple's record equals core_ranks.py's populated record |
| `CoreRanker.UpdateRanks` | core-ranker.py:82-85 | cores before the first empty tuple get their rank, in order; IndexError exactly when an empty tuple exists; the rest are untouched |
| `CoreRanker.UpdateFrequencies` | core-ranker.py:88-94 | the same for the frequency bounds |
| `CoreRanker.Run` | core-ranker.py:108-112 | the first sibling-list error, then IndexError exactly when an empty tuple was collected; on success one record per tuple sorted by `(-rank, siblings)` |
| `CoreRanker.UpdatedRecords` | core-ranker.py:110-111 | after both passes every core holds its tuple's record, one per tuple |
| `CoreRanker.SortedTable` | core-ranker.py:112 | sorting keeps the records and gives key order |
| `CoreRanker.TableIsUnique` | core-ranker.py:55-62 | one set of tuples gives one table, whatever the listing and set orders |
| `CoreRanker.RankedReportIsTable` | core-ranker.py:108-112 | core_ranks.py with the sort moved prints exactly core-ranker.py's table for the same tuples |

## Left out

- Printing is not modelled: `CpuInfo.__str__`, `cores_as_markdown` and the `print` calls in both `main` functions.
- Hash-set iteration order is left unspecified: `Cores.FromGroups` picks tuples in any order, and `Cores.SortedIsUnique` and `CoreRanker.TableIsUnique` show that the printed table does not depend on it.
- `int()` is modelled on ASCII digits only. Unicode digits and the underscores `int()` accepts between digits are not modelled. Whitespace, for `int()`, `str.strip()` and the regular expression `\s`, is Python's full `str.isspace` set, Unicode spaces included.
- `\d` in `cpu\d+` is modelled as an ASCII digit.
- Text decoding and universal newlines are not modelled: the file map holds decoded text.
- `Path.iterdir` and `os.listdir` order is a parameter.
- The list holds `CoreInfo` objects, modelled as values in an array. Two list slots never share an object, since each is created fresh, so aliasing is not modelled.
- `Cores.SortByKey` does not promise stability. Python's sort is stable, but equal keys here mean equal rank and siblings, and the tuples are distinct, so stability cannot be observed.
- In `core_ranks.py`, the sysfs reads of `get_cpu_info` use `read_str`, which catches OSError. Only opening /proc/cpuinfo can raise, and a decoding error of /proc/cpuinfo is not modelled.
- `CoreRanker.WithFrequencies`: its own contract states only what it keeps. The meaning of each bound is stated by `CoreRanker.FrequenciesKeepPrior`.

## Findings

| source | as written | input that shows it | evidently intended | confidence | as-written member | corrected member |
|---|---|---|---|---|---|---|
| core_ranks.py:127-129 | `get_core_cpus` sorts by `(-rank, siblings)` while every rank is still 0, and `update_cores` runs afterwards, so `CoreRanks.Report` prints the table in ascending sibling order | cpu0 and cpu1 without SMT siblings, `highest_perf` 1 on cpu0 and 2 on cpu1: rank 1 is printed above rank 2 | the comment at line 128 says "highest rank first"; core-ranker.py sorts after ranking, as `CoreRanks.RankedReport` does | not executed | `CoreRanks.ReportNotRankOrdered` | `CoreRanks.RankedReportPutsFasterFirst` |
