/**
  * The `thread_siblings_list` descriptor: a comma-separated list of CPU ids
  * and inclusive `a-b` ranges, expanded into `tuple(sorted(threads))`; and
  * Python's lexicographic order on such tuples.
  */
module Siblings {
  import opened Wrappers
  import opened Text

  predicate Ascending(s: seq<int>) {
    forall i, j :: 0 <= i < j < |s| ==> s[i] <= s[j]
  }

  /** `range(a, b + 1)`: the integers a..b inclusive, nothing when a > b. */
  function Range(a: int, b: int): (r: seq<int>)
    ensures |r| == if a <= b then b - a + 1 else 0
    ensures forall i :: 0 <= i < |r| ==> r[i] == a + i
    decreases b - a
  {
    if a > b then [] else [a] + Range(a + 1, b)
  }

  /**
    * One comma-separated part: a part holding "-" must split into exactly two
    * integers (`start, end = map(int, part.split("-"))`), any other part is a
    * single integer. None stands for the ValueError `int()` or the unpacking raises.
    */
  function ParsePart(part: string): (ids: Option<seq<int>>)
    ensures ids.Some? && '-' !in part ==> |ids.value| == 1
    ensures ids.Some? ==> forall i :: 0 < i < |ids.value| ==> ids.value[i] == ids.value[i - 1] + 1
  {
    if '-' in part then
      var ends := Split(part, '-');
      if |ends| != 2 then None
      else match (PyInt(ends[0]), PyInt(ends[1]))
        case (Some(start), Some(end)) => Some(Range(start, end))
        case _ => None
    else
      match PyInt(part)
      case Some(n) => Some([n])
      case None => None
  }

  /** Each part parsed on its own. */
  function ParsedParts(parts: seq<string>): (ps: seq<Option<seq<int>>>)
    ensures |ps| == |parts|
  {
    seq(|parts|, i requires 0 <= i < |parts| => ParsePart(parts[i]))
  }

  /** The `threads` list after extending it with each parsed part in turn; None once a part fails. */
  function Concat(ps: seq<Option<seq<int>>>): Option<seq<int>> {
    if ps == [] then Some([])
    else
      match Concat(ps[..|ps| - 1])
      case None => None
      case Some(threads) =>
        match ps[|ps| - 1]
        case None => None
        case Some(ids) => Some(threads + ids)
  }

  function ExpandParts(parts: seq<string>): Option<seq<int>> {
    Concat(ParsedParts(parts))
  }

  function Insert(x: int, s: seq<int>): (r: seq<int>)
    requires Ascending(s)
    ensures Ascending(r)
    ensures multiset(r) == multiset(s) + multiset{x}
  {
    if s == [] || x <= s[0] then [x] + s
    else
      var rest := Insert(x, s[1..]);
      assert s == [s[0]] + s[1..];
      LowerBoundKept(s[0], x, s[1..], rest);
      AscendingCons(s[0], rest);
      [s[0]] + rest
  }

  lemma AscendingCons(b: int, s: seq<int>)
    requires Ascending(s) && forall k :: 0 <= k < |s| ==> b <= s[k]
    ensures Ascending([b] + s)
  {
    var r := [b] + s;
    forall i, j | 0 <= i < j < |r|
      ensures r[i] <= r[j]
    {
      assert r[j] == s[j - 1];
      if i > 0 {
        assert r[i] == s[i - 1];
      }
    }
  }

  /** A bound below every old element and below x stays below every element after inserting x. */
  lemma LowerBoundKept(b: int, x: int, s: seq<int>, r: seq<int>)
    requires b <= x && forall k :: 0 <= k < |s| ==> b <= s[k]
    requires multiset(r) == multiset(s) + multiset{x}
    ensures forall k :: 0 <= k < |r| ==> b <= r[k]
  {
    forall k | 0 <= k < |r|
      ensures b <= r[k]
    {
      assert r[k] in multiset(r);
      if r[k] != x {
        assert r[k] in multiset(s);
      }
    }
  }

  /** `sorted(threads)`: ascending, same elements, duplicates kept. */
  function SortInts(s: seq<int>): (r: seq<int>)
    ensures Ascending(r)
    ensures multiset(r) == multiset(s)
  {
    if s == [] then []
    else
      assert s == [s[0]] + s[1..];
      Insert(s[0], SortInts(s[1..]))
  }

  /** `tuple(sorted(threads))` for the whole descriptor text; None on ValueError. */
  function ParseSiblingList(text: string): (r: Option<seq<int>>)
    ensures r.Some? ==> Ascending(r.value)
    ensures r.Some? <==> ExpandParts(Split(Strip(text), ',')).Some?
    ensures r.Some? ==> multiset(r.value) == multiset(ExpandParts(Split(Strip(text), ',')).value)
  {
    match ExpandParts(Split(Strip(text), ','))
    case None => None
    case Some(threads) => Some(SortInts(threads))
  }

  lemma {:induction false} ConcatFailureSticks(ps: seq<Option<seq<int>>>, k: nat)
    requires k <= |ps|
    requires Concat(ps[..k]) == None
    ensures Concat(ps) == None
    decreases |ps| - k
  {
    if k < |ps| {
      assert ps[..k + 1][..k] == ps[..k];
      ConcatFailureSticks(ps, k + 1);
    } else {
      assert ps[..k] == ps;
    }
  }

  lemma WholePrefix<T>(s: seq<T>)
    ensures s[..|s|] == s
  {
  }

  /** The body of the part loop: `threads.extend(range(start, end + 1))` or `threads.append(int(part))`. */
  method ExpandPart(part: string) returns (ids: Option<seq<int>>)
    ensures ids == ParsePart(part)
  {
    if '-' in part {
      var ends := Split(part, '-');
      if |ends| != 2 {
        return None;
      }
      var start := PyInt(ends[0]);
      var end := PyInt(ends[1]);
      if start.None? || end.None? {
        return None;
      }
      ids := Some(Range(start.value, end.value));
    } else {
      var n := PyInt(part);
      if n.None? {
        return None;
      }
      ids := Some([n.value]);
    }
  }

  /**
    * The loop of `get_core_cpus` that builds `threads` part by part; it stops
    * at the first part that raises ValueError.
    */
  method CollectThreads(parts: seq<string>) returns (r: Option<seq<int>>)
    ensures r == ExpandParts(parts)
  {
    ghost var parsed := ParsedParts(parts);
    var threads: seq<int> := [];
    var i := 0;
    while i < |parts|
      invariant 0 <= i <= |parts|
      invariant Concat(parsed[..i]) == Some(threads)
    {
      var ids := ExpandPart(parts[i]);
      assert parsed[i] == ids;
      ConcatStep(parsed, i);
      if ids.None? {
        ConcatFailureSticks(parsed, i + 1);
        return None;
      }
      threads := threads + ids.value;
      i := i + 1;
    }
    WholePrefix(parsed);
    r := Some(threads);
  }

  /** `tuple(sorted(threads))` where `threads` expands `text.strip().split(",")`. */
  method ExpandSiblingList(text: string) returns (r: Option<seq<int>>)
    ensures r == ParseSiblingList(text)
  {
    var threads := CollectThreads(Split(Strip(text), ','));
    if threads.None? {
      return None;
    }
    r := Some(SortInts(threads.value));
  }

  lemma ConcatStep(ps: seq<Option<seq<int>>>, k: nat)
    requires k < |ps|
    ensures Concat(ps[..k + 1]) ==
            match Concat(ps[..k])
            case None => None
            case Some(threads) => if ps[k].None? then None else Some(threads + ps[k].value)
  {
    assert ps[..k + 1][..k] == ps[..k];
  }

  /** `x` is one of the ids that the i-th parsed part denotes. */
  predicate Denotes(ps: seq<Option<seq<int>>>, i: int, x: int) {
    0 <= i < |ps| && ps[i].Some? && x in ps[i].value
  }

  lemma ConcatLast(ps: seq<Option<seq<int>>>)
    requires ps != [] && Concat(ps).Some?
    ensures Concat(ps[..|ps| - 1]).Some? && ps[|ps| - 1].Some?
    ensures Concat(ps).value == Concat(ps[..|ps| - 1]).value + ps[|ps| - 1].value
  {
  }

  lemma {:induction false} ConcatSound(ps: seq<Option<seq<int>>>, x: int)
    requires Concat(ps).Some? && x in Concat(ps).value
    ensures exists i :: Denotes(ps, i, x)
  {
    var n := |ps| - 1;
    var init := ps[..n];
    ConcatLast(ps);
    if x in Concat(init).value {
      ConcatSound(init, x);
      var i :| Denotes(init, i, x);
      assert init[i] == ps[i];
      assert Denotes(ps, i, x);
    } else {
      assert Denotes(ps, n, x);
    }
  }

  lemma {:induction false} ConcatComplete(ps: seq<Option<seq<int>>>, x: int, i: int)
    requires Concat(ps).Some? && Denotes(ps, i, x)
    ensures x in Concat(ps).value
  {
    var n := |ps| - 1;
    var init := ps[..n];
    ConcatLast(ps);
    if i < n {
      assert init[i] == ps[i];
      ConcatComplete(init, x, i);
    }
  }

  /**
    * An id is in the expanded list exactly when one of the parts denotes it:
    * the list is the union of what the parts denote.
    */
  lemma ExpandPartsMembers(parts: seq<string>, x: int)
    requires ExpandParts(parts).Some?
    ensures x in ExpandParts(parts).value <==> exists i :: Denotes(ParsedParts(parts), i, x)
  {
    var ps := ParsedParts(parts);
    if x in Concat(ps).value {
      ConcatSound(ps, x);
    }
    if exists i :: Denotes(ps, i, x) {
      var i :| Denotes(ps, i, x);
      ConcatComplete(ps, x, i);
    }
  }

  /** Every id a descriptor yields is non-negative: a "-" always separates a range. */
  lemma {:induction false} ParsePartNonNegative(part: string)
    requires ParsePart(part).Some?
    ensures forall x :: x in ParsePart(part).value ==> x >= 0
  {
    if '-' in part {
      var ends := Split(part, '-');
      StripHasNoNewChars(ends[0], '-');
      StripHasNoNewChars(ends[1], '-');
    } else {
      StripHasNoNewChars(part, '-');
    }
  }

  lemma StripHasNoNewChars(s: string, c: char)
    requires c !in s
    ensures c !in Strip(s)
  {
    var l := StripLeft(s);
    var t := Strip(s);
    assert t == l[..|t|];
    assert l == s[|s| - |l|..];
    forall k | 0 <= k < |t|
      ensures t[k] != c
    {
      assert t[k] == s[|s| - |l| + k];
    }
  }

  lemma ParseSiblingListNonNegative(text: string)
    requires ParseSiblingList(text).Some?
    ensures forall x :: x in ParseSiblingList(text).value ==> x >= 0
  {
    var parts := Split(Strip(text), ',');
    var r := ParseSiblingList(text).value;
    forall x | x in r
      ensures x >= 0
    {
      assert x in multiset(r);
      ExpandPartsMembers(parts, x);
      var i :| Denotes(ParsedParts(parts), i, x);
      ParsePartNonNegative(parts[i]);
    }
  }

  lemma {:induction false} SortIntsOfAscending(s: seq<int>)
    requires Ascending(s)
    ensures SortInts(s) == s
  {
    if s != [] {
      SortIntsOfAscending(s[1..]);
      assert s == [s[0]] + s[1..];
    }
  }

  /** The text "a-b" for two natural numbers. */
  function RangeText(a: nat, b: nat): string {
    ShowNat(a) + "-" + ShowNat(b)
  }

  lemma RangeTextShape(a: nat, b: nat)
    ensures Unpadded(RangeText(a, b)) && ',' !in RangeText(a, b)
  {
    var body := RangeText(a, b);
    var sa, sb := ShowNat(a), ShowNat(b);
    assert body[0] == sa[0] && body[|body| - 1] == sb[|sb| - 1];
    assert IsDigit(sa[0]) && IsDigit(sb[|sb| - 1]);
    forall k | 0 <= k < |body|
      ensures body[k] != ','
    {
      if k < |sa| {
        assert body[k] == sa[k];
        assert IsDigit(sa[k]);
      } else if k > |sa| {
        assert body[k] == sb[k - |sa| - 1];
        assert IsDigit(sb[k - |sa| - 1]);
      }
    }
  }

  lemma RangeTextPart(a: nat, b: nat)
    ensures ParsePart(RangeText(a, b)) == Some(Range(a, b))
  {
    var body := RangeText(a, b);
    assert '-' in body by { assert body[|ShowNat(a)|] == '-'; }
    SplitRangeText(a, b);
    PyIntOfShowNat(a);
    PyIntOfShowNat(b);
  }

  lemma SplitRangeText(a: nat, b: nat)
    ensures Split(RangeText(a, b), '-') == [ShowNat(a), ShowNat(b)]
  {
    assert '-' !in ShowNat(a) && '-' !in ShowNat(b) by {
      assert AllDigits(ShowNat(a)) && AllDigits(ShowNat(b));
    }
    assert Join([ShowNat(a), ShowNat(b)], '-') == RangeText(a, b);
    SplitOfJoin([ShowNat(a), ShowNat(b)], '-');
  }

  /** The kernel's form "a-b\n" denotes exactly the ids a..b (none when a > b). */
  lemma RangeDescriptor(a: nat, b: nat)
    ensures ParseSiblingList(RangeText(a, b) + "\n") == Some(Range(a, b))
  {
    RangeTextShape(a, b);
    RangeTextPart(a, b);
    OnePartDescriptor(RangeText(a, b), Range(a, b));
  }

  /** The kernel's form "n\n" for a core without SMT siblings denotes the single id n. */
  lemma SingleDescriptor(n: nat)
    ensures ParseSiblingList(ShowNat(n) + "\n") == Some([n])
  {
    var body := ShowNat(n);
    assert Unpadded(body) && ',' !in body by {
      assert IsDigit(body[0]) && IsDigit(body[|body| - 1]);
    }
    assert ParsePart(body) == Some([n]) by {
      assert '-' !in body;
      PyIntOfShowNat(n);
    }
    OnePartDescriptor(body, [n]);
  }

  /** A descriptor holding a single part, followed by the newline, denotes that part's ids. */
  lemma OnePartDescriptor(body: string, ids: seq<int>)
    requires Unpadded(body) && ',' !in body
    requires ParsePart(body) == Some(ids) && Ascending(ids)
    ensures ParseSiblingList(body + "\n") == Some(ids)
  {
    OnePartSplit(body);
    OnePartExpands(body, ids);
    ParseOfAscending(body + "\n", ids);
  }

  lemma OnePartSplit(body: string)
    requires Unpadded(body) && ',' !in body
    ensures Split(Strip(body + "\n"), ',') == [body]
  {
    StripNewline(body);
    assert Join([body], ',') == body;
    SplitOfJoin([body], ',');
  }

  lemma ParseOfAscending(text: string, ids: seq<int>)
    requires ExpandParts(Split(Strip(text), ',')) == Some(ids) && Ascending(ids)
    ensures ParseSiblingList(text) == Some(ids)
  {
    SortIntsOfAscending(ids);
  }

  lemma OnePartExpands(body: string, ids: seq<int>)
    requires ParsePart(body) == Some(ids)
    ensures ExpandParts([body]) == Some(ids)
  {
    var ps := ParsedParts([body]);
    assert ps == [Some(ids)];
    assert ps[..0] == [];
    assert Concat(ps) == Some([] + ids);
    assert [] + ids == ids;
  }

  /** Python's `a <= b` on tuples of ints: first difference decides, a proper prefix comes first. */
  predicate LexLe(a: seq<int>, b: seq<int>)
    ensures a <= b ==> LexLe(a, b)
    ensures a != [] && b != [] && a[0] != b[0] ==> (LexLe(a, b) <==> a[0] < b[0])
  {
    a == [] || (b != [] && (a[0] < b[0] || (a[0] == b[0] && LexLe(a[1..], b[1..]))))
  }

  /** Python's `a < b` on tuples of ints. */
  predicate LexLt(a: seq<int>, b: seq<int>) {
    LexLe(a, b) && a != b
  }

  lemma {:induction false} LexLeTotal(a: seq<int>, b: seq<int>)
    ensures LexLe(a, b) || LexLe(b, a)
  {
    if a != [] && b != [] && a[0] == b[0] {
      LexLeTotal(a[1..], b[1..]);
    }
  }

  lemma {:induction false} LexLeTransitive(a: seq<int>, b: seq<int>, c: seq<int>)
    requires LexLe(a, b) && LexLe(b, c)
    ensures LexLe(a, c)
  {
    if a != [] && a[0] == b[0] && b[0] == c[0] {
      LexLeTransitive(a[1..], b[1..], c[1..]);
    }
  }

  lemma {:induction false} LexLeAntisymmetric(a: seq<int>, b: seq<int>)
    requires LexLe(a, b) && LexLe(b, a)
    ensures a == b
  {
    if a != [] {
      LexLeAntisymmetric(a[1..], b[1..]);
      assert a == [a[0]] + a[1..] && b == [b[0]] + b[1..];
    }
  }
}
