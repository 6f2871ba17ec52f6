/**
  * What both scripts share about `CoreInfo` records: their construction with
  * default fields, the sort key `(-core.rank, core.siblings)` and the in-place
  * `list.sort` by it, and the deduplicating collection of sibling tuples.
  */
module Cores {
  import opened Wrappers
  import opened Sysfs
  import opened Siblings

  /** One physical core: its sibling tuple, rank and frequency bounds in MHz. */
  datatype CoreInfo = CoreInfo(rank: int, siblings: seq<int>, minMhz: int, maxMhz: int)

  /** `CoreInfo(siblings=cpus)`: rank and both bounds at their default 0. */
  function NewCore(cpus: seq<int>): (c: CoreInfo)
    ensures c.siblings == cpus && c.rank == 0 && c.minMhz == 0 && c.maxMhz == 0
  {
    CoreInfo(0, cpus, 0, 0)
  }

  /** Python's `<=` on the keys `(-x.rank, x.siblings)` and `(-y.rank, y.siblings)`. */
  predicate KeyLe(x: CoreInfo, y: CoreInfo)
    ensures x.rank != y.rank ==> (KeyLe(x, y) <==> x.rank > y.rank)
    ensures x.rank == y.rank && x.siblings <= y.siblings ==> KeyLe(x, y)
  {
    -x.rank < -y.rank || (-x.rank == -y.rank && LexLe(x.siblings, y.siblings))
  }

  predicate SortedByKey(s: seq<CoreInfo>) {
    forall i, j :: 0 <= i < j < |s| ==> KeyLe(s[i], s[j])
  }

  lemma KeyLeTotal(x: CoreInfo, y: CoreInfo)
    ensures KeyLe(x, y) || KeyLe(y, x)
  {
    LexLeTotal(x.siblings, y.siblings);
  }

  lemma KeyLeTransitive(x: CoreInfo, y: CoreInfo, z: CoreInfo)
    requires KeyLe(x, y) && KeyLe(y, z)
    ensures KeyLe(x, z)
  {
    if x.rank == y.rank == z.rank {
      LexLeTransitive(x.siblings, y.siblings, z.siblings);
    }
  }

  /** Keys that compare equal both ways belong to cores with the same rank and siblings. */
  lemma KeyLeAntisymmetric(x: CoreInfo, y: CoreInfo)
    requires KeyLe(x, y) && KeyLe(y, x)
    ensures x.rank == y.rank && x.siblings == y.siblings
  {
    LexLeAntisymmetric(x.siblings, y.siblings);
  }

  /**
    * `cores.sort(key=lambda core: (-core.rank, core.siblings))`: highest rank
    * first, ties broken by the lexicographically smaller sibling tuple. An
    * insertion sort by adjacent swaps stands in for Python's stable sort.
    */
  method SortByKey(a: array<CoreInfo>)
    modifies a
    ensures SortedByKey(a[..])
    ensures multiset(a[..]) == multiset(old(a[..]))
  {
    var i := 0;
    while i < a.Length
      invariant 0 <= i <= a.Length
      invariant SortedByKey(a[..i])
      invariant multiset(a[..]) == multiset(old(a[..]))
    {
      InsertLast(a, i);
      i := i + 1;
    }
    assert a[..a.Length] == a[..];
  }

  /** While inserting a[i]: a[..j] and a[j..i + 1] sorted, everything left of j below everything right of it. */
  predicate Inserting(s: seq<CoreInfo>, j: int, i: int)
    requires 0 <= j <= i < |s|
  {
    SortedByKey(s[..j]) && SortedByKey(s[j..i + 1]) &&
    forall k, m :: 0 <= k < j < m <= i ==> KeyLe(s[k], s[m])
  }

  /** Moves a[i] left into the sorted prefix a[..i]. */
  method InsertLast(a: array<CoreInfo>, i: int)
    requires 0 <= i < a.Length
    requires SortedByKey(a[..i])
    modifies a
    ensures SortedByKey(a[..i + 1])
    ensures multiset(a[..]) == multiset(old(a[..]))
  {
    var j := i;
    assert Inserting(a[..], j, i) by {
      assert a[..][..i] == a[..i];
    }
    while j > 0 && !KeyLe(a[j - 1], a[j])
      invariant 0 <= j <= i
      invariant multiset(a[..]) == multiset(old(a[..]))
      invariant Inserting(a[..], j, i)
    {
      KeyLeTotal(a[j - 1], a[j]);
      ghost var before := a[..];
      SwapAdjacent(a, j);
      InsertingStep(before, j, i);
      j := j - 1;
    }
    JoinSorted(a[..], j, i);
    assert a[..][..i + 1] == a[..i + 1];
  }

  lemma InsertingStep(s: seq<CoreInfo>, j: int, i: int)
    requires 0 < j <= i < |s|
    requires Inserting(s, j, i)
    requires KeyLe(s[j], s[j - 1])
    ensures Inserting(s[j - 1 := s[j]][j := s[j - 1]], j - 1, i)
  {
    var t := s[j - 1 := s[j]][j := s[j - 1]];
    forall k, m | 0 <= k < m < j - 1
      ensures KeyLe(t[k], t[m])
    {
      assert s[..j][k] == s[k] && s[..j][m] == s[m];
    }
    assert SortedByKey(t[..j - 1]);
    forall k, m | j - 1 <= k < m <= i
      ensures KeyLe(t[k], t[m])
    {
      if k == j - 1 && m == j {
      } else if k == j - 1 {
        assert s[j..i + 1][0] == s[j] && s[j..i + 1][m - j] == s[m];
      } else if k == j {
        assert KeyLe(s[j - 1], s[m]);
      } else {
        assert s[j..i + 1][k - j] == s[k] && s[j..i + 1][m - j] == s[m];
      }
    }
    assert SortedByKey(t[j - 1..i + 1]);
    forall k, m | 0 <= k < j - 1 < m <= i
      ensures KeyLe(t[k], t[m])
    {
      if m == j {
        assert s[..j][k] == s[k] && s[..j][j - 1] == s[j - 1];
      }
    }
  }

  method SwapAdjacent(a: array<CoreInfo>, j: int)
    requires 0 < j < a.Length
    modifies a
    ensures a[..] == old(a[..])[j - 1 := old(a[j])][j := old(a[j - 1])]
    ensures multiset(a[..]) == multiset(old(a[..]))
  {
    a[j - 1], a[j] := a[j], a[j - 1];
  }

  lemma JoinSorted(s: seq<CoreInfo>, j: int, i: int)
    requires 0 <= j <= i < |s|
    requires SortedByKey(s[..j]) && SortedByKey(s[j..i + 1])
    requires forall k, m :: 0 <= k < j < m <= i ==> KeyLe(s[k], s[m])
    requires j > 0 ==> KeyLe(s[j - 1], s[j])
    ensures SortedByKey(s[..i + 1])
  {
    forall k, m | 0 <= k < m <= i
      ensures KeyLe(s[k], s[m])
    {
      if m < j {
        assert s[..j][k] == s[k] && s[..j][m] == s[m];
      } else if k >= j {
        assert s[j..i + 1][k - j] == s[k] && s[j..i + 1][m - j] == s[m];
      } else if m > j {
      } else {
        // m == j
        if k < j - 1 {
          assert s[..j][k] == s[k] && s[..j][j - 1] == s[j - 1];
          KeyLeTransitive(s[k], s[j - 1], s[j]);
        }
      }
    }
  }

  /** What one directory entry contributes to `unique_cores`. */
  datatype Lookup = Skip | Fail(error: Error) | Found(cpus: seq<int>)

  /** Visiting one entry: an earlier exception sticks, otherwise the entry is skipped, raises or adds its tuple. */
  function Visit(acc: Result<set<seq<int>>, Error>, d: Lookup): Result<set<seq<int>>, Error> {
    match acc
    case Err(e) => Err(e)
    case Ok(groups) =>
      match d
      case Skip => Ok(groups)
      case Fail(e) => Err(e)
      case Found(cpus) => Ok(groups + {cpus})
  }

  /**
    * `unique_cores` after visiting the entries in order: the set of the Found
    * tuples, or the exception raised by the first entry that fails.
    */
  function GroupsOf(ds: seq<Lookup>): (r: Result<set<seq<int>>, Error>)
    ensures r.Ok? ==> |r.value| <= |ds|
  {
    if ds == [] then Ok({}) else Visit(GroupsOf(ds[..|ds| - 1]), ds[|ds| - 1])
  }

  lemma GroupsOfStep(ds: seq<Lookup>, i: int)
    requires 0 <= i < |ds|
    ensures GroupsOf(ds[..i + 1]) == Visit(GroupsOf(ds[..i]), ds[i])
  {
    assert ds[..i + 1][..i] == ds[..i];
  }

  /** The collection loop's step: what entry i does to the tuples gathered before it. */
  lemma VisitEntry(ds: seq<Lookup>, i: int, groups: set<seq<int>>)
    requires 0 <= i < |ds| && GroupsOf(ds[..i]) == Ok(groups)
    ensures ds[i].Skip? ==> GroupsOf(ds[..i + 1]) == Ok(groups)
    ensures ds[i].Found? ==> GroupsOf(ds[..i + 1]) == Ok(groups + {ds[i].cpus})
    ensures ds[i].Fail? ==> GroupsOf(ds) == Err(ds[i].error)
  {
    GroupsOfStep(ds, i);
    if ds[i].Fail? {
      GroupsOfFailureSticks(ds, i + 1, ds[i].error);
    }
  }

  /** Visiting one more entry at the end is one more step of the collection. */
  lemma GroupsOfSnoc(ds: seq<Lookup>, d: Lookup)
    ensures GroupsOf(ds + [d]) == Visit(GroupsOf(ds), d)
  {
    assert (ds + [d])[..|ds|] == ds;
  }

  /** Once an entry has raised, later entries change nothing. */
  lemma {:induction false} GroupsOfFailureSticks(ds: seq<Lookup>, n: nat, e: Error)
    requires n <= |ds| && GroupsOf(ds[..n]) == Err(e)
    ensures GroupsOf(ds) == Err(e)
    decreases |ds| - n
  {
    if n < |ds| {
      GroupsOfStep(ds, n);
      GroupsOfFailureSticks(ds, n + 1, e);
    } else {
      assert ds[..n] == ds;
    }
  }

  /**
    * The collection succeeds exactly when no entry fails, and then holds
    * exactly the tuples some entry found: duplicates collapse, nothing else
    * gets in.
    */
  lemma {:induction false} GroupsOfSuccess(ds: seq<Lookup>)
    ensures GroupsOf(ds).Ok? <==> forall i :: 0 <= i < |ds| ==> !ds[i].Fail?
    ensures GroupsOf(ds).Ok? ==> forall g :: g in GroupsOf(ds).value <==> Found(g) in ds
  {
    if ds != [] {
      var init, last := ds[..|ds| - 1], ds[|ds| - 1];
      GroupsOfSuccess(init);
      assert ds == init + [last];
      assert forall i :: 0 <= i < |init| ==> init[i] == ds[i];
      assert GroupsOf(ds) == Visit(GroupsOf(init), last);
      if GroupsOf(ds).Ok? {
        assert forall g :: Found(g) in ds <==> Found(g) in init || Found(g) == last;
      }
    }
  }

  /** When the collection fails, it is with the error of the first entry that fails. */
  lemma {:induction false} GroupsOfFirstFailure(ds: seq<Lookup>, k: int)
    requires 0 <= k < |ds| && ds[k].Fail?
    requires forall i :: 0 <= i < k ==> !ds[i].Fail?
    ensures GroupsOf(ds) == Err(ds[k].error)
  {
    GroupsOfSuccess(ds[..k]);
    assert forall i :: 0 <= i < k ==> ds[..k][i] == ds[i];
    GroupsOfStep(ds, k);
    GroupsOfFailureSticks(ds, k + 1, ds[k].error);
  }

  /** The sibling tuples of a list of cores, in list order. */
  function SiblingTuples(s: seq<CoreInfo>): (t: seq<seq<int>>)
    ensures |t| == |s| && forall i :: 0 <= i < |s| ==> t[i] == s[i].siblings
  {
    seq(|s|, i requires 0 <= i < |s| => s[i].siblings)
  }

  predicate DistinctSiblings(s: seq<CoreInfo>) {
    forall i, j :: 0 <= i < j < |s| ==> s[i].siblings != s[j].siblings
  }

  /** One core per collected tuple, no tuple twice, and no other core. */
  predicate OnePerGroup(s: seq<CoreInfo>, groups: set<seq<int>>) {
    DistinctSiblings(s) &&
    (forall g :: g in groups ==> g in SiblingTuples(s)) &&
    (forall i :: 0 <= i < |s| ==> s[i].siblings in groups)
  }

  predicate AllNew(s: seq<CoreInfo>) {
    forall i :: 0 <= i < |s| ==> s[i] == NewCore(s[i].siblings)
  }

  /**
    * `[CoreInfo(siblings=cpus) for cpus in unique_cores]`: one fresh default
    * record per tuple, in the set's iteration order, which Python leaves to
    * the hash of the tuples and the model leaves unspecified.
    */
  method FromGroups(groups: set<seq<int>>) returns (a: array<CoreInfo>)
    ensures fresh(a)
    ensures a.Length == |groups|
    ensures OnePerGroup(a[..], groups) && AllNew(a[..])
  {
    a := new CoreInfo[|groups|](_ => NewCore([]));
    var remaining := groups;
    var i := 0;
    while remaining != {}
      invariant 0 <= i <= a.Length && i + |remaining| == a.Length
      invariant remaining <= groups
      invariant DistinctSiblings(a[..i]) && AllNew(a[..i])
      invariant forall g :: g in groups <==> g in remaining || g in SiblingTuples(a[..i])
      invariant forall g :: g in remaining ==> g !in SiblingTuples(a[..i])
      decreases |remaining|
    {
      var g :| g in remaining;
      ghost var before := a[..i];
      a[i] := NewCore(g);
      assert a[..i + 1] == before + [NewCore(g)];
      assert SiblingTuples(a[..i + 1]) == SiblingTuples(before) + [g];
      remaining := remaining - {g};
      i := i + 1;
    }
    assert a[..i] == a[..];
  }

  /** A distinct list holds each value at most once. */
  lemma {:induction false} DistinctCount(s: seq<CoreInfo>, x: CoreInfo)
    requires forall i, j :: 0 <= i < j < |s| ==> s[i] != s[j]
    ensures multiset(s)[x] <= 1
  {
    if s != [] {
      assert s == [s[0]] + s[1..];
      DistinctCount(s[1..], x);
      if s[0] == x {
        assert x !in s[1..];
      }
    }
  }

  lemma TwoPlaces(s: seq<CoreInfo>, i: int, j: int)
    requires 0 <= i < j < |s|
    ensures multiset(s)[s[i]] >= 1 + (if s[j] == s[i] then 1 else 0)
  {
    assert s == s[..j] + s[j..];
    assert s[i] in s[..j];
    assert s[j..][0] == s[j];
  }

  /**
    * Sorting only permutes the records, so a list with one record per tuple
    * keeps that shape: the sort loses and duplicates nothing.
    */
  lemma PermutationKeepsGroups(s: seq<CoreInfo>, t: seq<CoreInfo>, groups: set<seq<int>>)
    requires OnePerGroup(s, groups)
    requires multiset(t) == multiset(s)
    ensures OnePerGroup(t, groups)
    ensures forall k :: 0 <= k < |t| ==> t[k] in s
  {
    PermutationMembers(s, t);
    PermutationKeepsDistinct(s, t);
    forall g | g in groups
      ensures g in SiblingTuples(t)
    {
      var k :| 0 <= k < |s| && s[k].siblings == g;
      var m :| 0 <= m < |t| && t[m] == s[k];
      assert SiblingTuples(t)[m] == g;
    }
    forall m | 0 <= m < |t|
      ensures t[m].siblings in groups
    {
      var k :| 0 <= k < |s| && s[k] == t[m];
    }
  }

  lemma PermutationMembers(s: seq<CoreInfo>, t: seq<CoreInfo>)
    requires multiset(t) == multiset(s)
    ensures forall k :: 0 <= k < |t| ==> t[k] in s
    ensures forall k :: 0 <= k < |s| ==> s[k] in t
  {
    forall k | 0 <= k < |t|
      ensures t[k] in s
    {
      assert t[k] in multiset(t);
    }
    forall k | 0 <= k < |s|
      ensures s[k] in t
    {
      assert s[k] in multiset(s);
    }
  }

  lemma PermutationKeepsDistinct(s: seq<CoreInfo>, t: seq<CoreInfo>)
    requires DistinctSiblings(s)
    requires multiset(t) == multiset(s)
    ensures DistinctSiblings(t)
  {
    forall i, j | 0 <= i < j < |s|
      ensures s[i] != s[j]
    {
      assert s[i].siblings != s[j].siblings;
    }
    forall i, j | 0 <= i < j < |t|
      ensures t[i].siblings != t[j].siblings
    {
      DistinctCount(s, t[i]);
      TwoPlaces(t, i, j);
      assert t[i] in multiset(t) && t[j] in multiset(t);
      var a :| 0 <= a < |s| && s[a] == t[i];
      var b :| 0 <= b < |s| && s[b] == t[j];
      assert a != b;
    }
  }

  /** A fresh default record stays one after a permutation. */
  lemma PermutationKeepsNew(s: seq<CoreInfo>, t: seq<CoreInfo>)
    requires AllNew(s)
    requires forall k :: 0 <= k < |t| ==> t[k] in s
    ensures AllNew(t)
  {
    forall k | 0 <= k < |t|
      ensures t[k] == NewCore(t[k].siblings)
    {
      var m :| 0 <= m < |s| && s[m] == t[k];
    }
  }

  /**
    * The sorted order is unique: two lists sorted by `(-rank, siblings)`,
    * each with distinct tuples and holding the same records, are equal. So the
    * final order does not depend on the set's iteration order.
    */
  lemma {:induction false} SortedIsUnique(s: seq<CoreInfo>, t: seq<CoreInfo>)
    requires SortedByKey(s) && SortedByKey(t)
    requires DistinctSiblings(s) && DistinctSiblings(t)
    requires forall x :: x in s <==> x in t
    ensures s == t
  {
    SameMembersBothEmpty(s, t);
    if s != [] {
      SameHeads(s, t);
      SameTailMembers(s, t);
      SortedIsUnique(s[1..], t[1..]);
      assert s == [s[0]] + s[1..] && t == [t[0]] + t[1..];
    }
  }

  lemma SameMembersBothEmpty(s: seq<CoreInfo>, t: seq<CoreInfo>)
    requires forall x :: x in s <==> x in t
    ensures s == [] <==> t == []
  {
    if s != [] {
      assert s[0] in t;
    }
    if t != [] {
      assert t[0] in s;
    }
  }

  /** The head of a sorted list is at or below every member. */
  lemma SortedHeadIsLeast(s: seq<CoreInfo>, x: CoreInfo)
    requires SortedByKey(s) && x in s
    ensures KeyLe(s[0], x)
  {
    var k :| 0 <= k < |s| && s[k] == x;
    if k == 0 {
      KeyLeTotal(x, x);
    }
  }

  lemma SameHeads(s: seq<CoreInfo>, t: seq<CoreInfo>)
    requires s != [] && t != []
    requires SortedByKey(s) && SortedByKey(t) && DistinctSiblings(t)
    requires forall x :: x in s <==> x in t
    ensures s[0] == t[0]
  {
    assert s[0] in t && t[0] in s;
    SortedHeadIsLeast(s, t[0]);
    SortedHeadIsLeast(t, s[0]);
    KeyLeAntisymmetric(s[0], t[0]);
    var j :| 0 <= j < |t| && t[j] == s[0];
    assert t[j].siblings == t[0].siblings;
  }

  lemma SameTailMembers(s: seq<CoreInfo>, t: seq<CoreInfo>)
    requires s != [] && t != [] && s[0] == t[0]
    requires DistinctSiblings(s) && DistinctSiblings(t)
    requires forall x :: x in s <==> x in t
    ensures forall x :: x in s[1..] <==> x in t[1..]
  {
    forall x | x in s[1..]
      ensures x in t[1..]
    {
      var m :| 1 <= m < |s| && s[m] == x;
      assert x.siblings != s[0].siblings;
      assert x in t;
    }
    forall x | x in t[1..]
      ensures x in s[1..]
    {
      var m :| 1 <= m < |t| && t[m] == x;
      assert x.siblings != t[0].siblings;
      assert x in s;
    }
  }

  /** Index of the first core with an empty sibling tuple, or |s|. */
  function FirstEmpty(s: seq<CoreInfo>): (k: nat)
    ensures k <= |s|
    ensures forall i :: 0 <= i < k ==> s[i].siblings != []
    ensures k < |s| ==> s[k].siblings == []
  {
    if s == [] || s[0].siblings == [] then 0 else 1 + FirstEmpty(s[1..])
  }

  /** A group expands to nothing exactly when a pass over the list meets a core without siblings (`siblings[0]` raises IndexError). */
  lemma EmptyGroupIsFirstEmpty(s: seq<CoreInfo>, groups: set<seq<int>>)
    requires OnePerGroup(s, groups)
    ensures [] in groups <==> FirstEmpty(s) < |s|
  {
    if [] in groups {
      var m :| 0 <= m < |s| && SiblingTuples(s)[m] == [];
    }
  }

  lemma SameSiblingsKeepShape(before: seq<CoreInfo>, after: seq<CoreInfo>, groups: set<seq<int>>)
    requires |before| == |after|
    requires forall i :: 0 <= i < |after| ==> after[i].siblings == before[i].siblings
    requires OnePerGroup(before, groups)
    ensures OnePerGroup(after, groups)
  {
    assert SiblingTuples(after) == SiblingTuples(before);
  }
}
