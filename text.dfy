/**
  * The handful of Python string operations the scripts rely on: `str.strip()`,
  * `str.split(sep)` with a one-character separator, and `int(s)` on a plain
  * optionally signed base-10 literal; plus the `f"{n}"` rendering of an int.
  */
module Text {
  import opened Wrappers

  /**
    * Python's `str.isspace`, which is also what `strip()`, `int()` and the
    * regular expression `\s` treat as whitespace: \t \n \v \f \r, 0x1C-0x1F,
    * space, and the Unicode spaces U+0085, U+00A0, U+1680, U+2000-U+200A,
    * U+2028, U+2029, U+202F, U+205F and U+3000.
    */
  predicate IsSpace(c: char) {
    ('\t' <= c <= '\r') || ('\U{1C}' <= c <= ' ') || c == '\U{85}' || c == '\U{A0}' ||
    c == '\U{1680}' || ('\U{2000}' <= c <= '\U{200A}') || c == '\U{2028}' || c == '\U{2029}' ||
    c == '\U{202F}' || c == '\U{205F}' || c == '\U{3000}'
  }

  /** No whitespace at either end: what `strip()` leaves behind. */
  predicate Unpadded(s: string) {
    s == [] || (!IsSpace(s[0]) && !IsSpace(s[|s| - 1]))
  }

  predicate AllSpace(s: string) {
    forall i :: 0 <= i < |s| ==> IsSpace(s[i])
  }

  /** End of the whitespace run that starts at `from`. */
  function SpaceEnd(s: string, from: nat): (e: nat)
    requires from <= |s|
    ensures from <= e <= |s|
    ensures forall i :: from <= i < e ==> IsSpace(s[i])
    ensures e < |s| ==> !IsSpace(s[e])
    decreases |s| - from
  {
    if from == |s| || !IsSpace(s[from]) then from else SpaceEnd(s, from + 1)
  }

  /** Start of the whitespace run that ends at `to`. */
  function SpaceStart(s: string, to: nat): (b: nat)
    requires to <= |s|
    ensures b <= to
    ensures forall i :: b <= i < to ==> IsSpace(s[i])
    ensures b > 0 ==> !IsSpace(s[b - 1])
  {
    if to == 0 || !IsSpace(s[to - 1]) then to else SpaceStart(s, to - 1)
  }

  /** `str.lstrip()`: the longest suffix that does not start with whitespace. */
  function StripLeft(s: string): (r: string)
    ensures |r| <= |s| && r == s[|s| - |r|..]
    ensures r == [] || !IsSpace(r[0])
    ensures AllSpace(s[..|s| - |r|])
  {
    var e := SpaceEnd(s, 0);
    assert forall i :: 0 <= i < e ==> s[..e][i] == s[i];
    s[e..]
  }

  /** `str.rstrip()`: the longest prefix that does not end with whitespace. */
  function StripRight(s: string): (r: string)
    ensures |r| <= |s| && r == s[..|r|]
    ensures r == [] || !IsSpace(r[|r| - 1])
    ensures AllSpace(s[|r|..])
  {
    var b := SpaceStart(s, |s|);
    assert forall i :: 0 <= i < |s| - b ==> s[b..][i] == s[b + i];
    s[..b]
  }

  /** `str.strip()`: no whitespace left at either end, and nothing left of all-whitespace text. */
  function Strip(s: string): (r: string)
    ensures |r| <= |s|
    ensures r == [] <==> AllSpace(s)
  {
    StripEmpty(s);
    StripRight(StripLeft(s))
  }

  /** What `Strip` leaves is empty exactly when the text was all whitespace. */
  lemma StripEmpty(s: string)
    ensures var r := StripRight(StripLeft(s));
            Unpadded(r) && (r == [] <==> AllSpace(s))
  {
    var l := StripLeft(s);
    var r := StripRight(l);
    assert r != [] ==> r[0] == l[0];
    if r == [] {
      assert l[0..] == l;
      assert l == [];
      assert s[..|s|] == s;
    }
  }

  lemma {:induction false} SpaceEndIs(s: string, from: nat, e: nat)
    requires from <= e <= |s|
    requires forall i :: from <= i < e ==> IsSpace(s[i])
    requires e < |s| ==> !IsSpace(s[e])
    ensures SpaceEnd(s, from) == e
    decreases e - from
  {
    if from < e {
      SpaceEndIs(s, from + 1, e);
    }
  }

  lemma {:induction false} SpaceStartIs(s: string, to: nat, b: nat)
    requires b <= to <= |s|
    requires forall i :: b <= i < to ==> IsSpace(s[i])
    requires b > 0 ==> !IsSpace(s[b - 1])
    ensures SpaceStart(s, to) == b
  {
    if b < to {
      SpaceStartIs(s, to - 1, b);
    }
  }

  lemma StripLeftPadding(pre: string, s: string)
    requires AllSpace(pre)
    requires s == [] || !IsSpace(s[0])
    ensures StripLeft(pre + s) == s
  {
    var t := pre + s;
    assert forall i :: 0 <= i < |pre| ==> t[i] == pre[i];
    SpaceEndIs(t, 0, |pre|);
    assert t[|pre|..] == s;
  }

  lemma StripRightPadding(s: string, post: string)
    requires AllSpace(post)
    requires s == [] || !IsSpace(s[|s| - 1])
    ensures StripRight(s + post) == s
  {
    var t := s + post;
    assert forall i :: |s| <= i < |t| ==> t[i] == post[i - |s|];
    SpaceStartIs(t, |t|, |s|);
    assert t[..|s|] == s;
  }

  /**
    * `strip()` removes exactly the surrounding whitespace: padding an
    * unpadded string with whitespace on both sides and stripping it gives the
    * string back.
    */
  lemma StripRemovesPadding(pre: string, s: string, post: string)
    requires AllSpace(pre) && AllSpace(post)
    requires Unpadded(s)
    ensures Strip(pre + s + post) == s
  {
    if s == [] {
      assert pre + s + post == pre + post;
      StripLeftPadding(pre + post, []);
      assert pre + post + [] == pre + post;
    } else {
      assert pre + s + post == pre + (s + post);
      StripLeftPadding(pre, s + post);
      StripRightPadding(s, post);
    }
  }

  /** Inverse of `Split`: `sep.join(parts)`. */
  function Join(parts: seq<string>, sep: char): string
    requires |parts| > 0
  {
    if |parts| == 1 then parts[0] else parts[0] + [sep] + Join(parts[1..], sep)
  }

  /** `s.split(sep)`: never empty, and `"".split(sep) == [""]`. */
  function Split(s: string, sep: char): (parts: seq<string>)
    ensures |parts| > 0
    ensures forall i :: 0 <= i < |parts| ==> sep !in parts[i]
    ensures Join(parts, sep) == s
  {
    if s == [] then [""]
    else
      var rest := Split(s[1..], sep);
      if s[0] == sep then [""] + rest
      else [[s[0]] + rest[0]] + rest[1..]
  }

  lemma {:induction false} SplitAfterPrefix(p: string, t: string, sep: char)
    requires sep !in p
    ensures Split(p + t, sep) == [p + Split(t, sep)[0]] + Split(t, sep)[1..]
  {
    if p == [] {
      var st := Split(t, sep);
      assert p + t == t && p + st[0] == st[0];
      assert [st[0]] + st[1..] == st;
    } else {
      assert (p + t)[0] == p[0] && (p + t)[1..] == p[1..] + t;
      SplitAfterPrefix(p[1..], t, sep);
      var rest := Split(p[1..] + t, sep);
      assert Split(p + t, sep) == [[p[0]] + rest[0]] + rest[1..];
      assert [p[0]] + (p[1..] + Split(t, sep)[0]) == p + Split(t, sep)[0];
    }
  }

  /** Splitting a join of separator-free parts gives the parts back. */
  lemma {:induction false} SplitOfJoin(parts: seq<string>, sep: char)
    requires |parts| > 0
    requires forall i :: 0 <= i < |parts| ==> sep !in parts[i]
    ensures Split(Join(parts, sep), sep) == parts
  {
    var p := parts[0];
    if |parts| == 1 {
      SplitAfterPrefix(p, [], sep);
      assert p + [] == p;
    } else {
      var j := Join(parts[1..], sep);
      SplitOfJoin(parts[1..], sep);
      assert ([sep] + j)[1..] == j;
      assert Split([sep] + j, sep) == [""] + parts[1..];
      assert p + [sep] + j == p + ([sep] + j);
      SplitAfterPrefix(p, [sep] + j, sep);
      assert p + "" == p;
    }
  }

  predicate IsDigit(c: char) {
    '0' <= c <= '9'
  }

  predicate AllDigits(s: string) {
    forall i :: 0 <= i < |s| ==> IsDigit(s[i])
  }

  function DigitChar(d: nat): (c: char)
    requires d < 10
    ensures IsDigit(c)
  {
    ('0' as int + d) as char
  }

  /** The number a non-empty run of decimal digits denotes, read most significant first. */
  function DigitsValue(s: string): nat
    requires AllDigits(s)
  {
    if s == [] then 0 else DigitsValue(s[..|s| - 1]) * 10 + (s[|s| - 1] as int - '0' as int)
  }

  /**
    * `int(s)` on an already stripped string: an optional sign followed by at
    * least one decimal digit; anything else is a ValueError (None).
    */
  function ParseDecimal(s: string): (r: Option<int>)
    ensures r.Some? ==> |s| > 0
    ensures r.Some? ==> forall i :: 0 <= i < |s| ==> IsDigit(s[i]) || (i == 0 && s[0] in "+-")
    ensures r.Some? && '-' !in s ==> r.value >= 0
  {
    if |s| > 0 && (s[0] == '+' || s[0] == '-') then
      var digits := s[1..];
      if digits != [] && AllDigits(digits) then
        Some(if s[0] == '-' then 0 - DigitsValue(digits) else DigitsValue(digits))
      else None
    else if s != [] && AllDigits(s) then Some(DigitsValue(s))
    else None
  }

  /**
    * Python's `int(s)`, which itself ignores surrounding whitespace: blank
    * text is a ValueError, and text without a '-' never reads as negative.
    */
  function PyInt(s: string): (r: Option<int>)
    ensures AllSpace(s) ==> r.None?
    ensures r.Some? && '-' !in s ==> r.value >= 0
  {
    StripKeepsDashFree(s);
    ParseDecimal(Strip(s))
  }

  /** `strip()` only removes characters, so it cannot bring a '-' in. */
  lemma StripKeepsDashFree(s: string)
    ensures '-' !in s ==> '-' !in Strip(s)
  {
    var t := Strip(s);
    if '-' in t {
      var l := StripLeft(s);
      assert t == l[..|t|] && l == s[|s| - |l|..];
      var k :| 0 <= k < |t| && t[k] == '-';
      assert s[|s| - |l| + k] == '-';
    }
  }

  /** `f"{n}"` for n >= 0. */
  function ShowNat(n: nat): (s: string)
    ensures |s| > 0 && AllDigits(s)
  {
    if n < 10 then [DigitChar(n)] else ShowNat(n / 10) + [DigitChar(n % 10)]
  }

  /** `f"{n}"` */
  function ShowInt(n: int): (s: string)
    ensures |s| > 0 && Unpadded(s)
  {
    if n < 0 then "-" + ShowNat(-n) else ShowNat(n)
  }

  lemma {:induction false} DigitsValueOfShowNat(n: nat)
    ensures DigitsValue(ShowNat(n)) == n
  {
    if n >= 10 {
      var s := ShowNat(n);
      assert s[..|s| - 1] == ShowNat(n / 10);
      DigitsValueOfShowNat(n / 10);
    }
  }

  /** `int(f"{n}") == n` for every integer. */
  lemma ParseShowInt(n: int)
    ensures ParseDecimal(ShowInt(n)) == Some(n)
  {
    if n < 0 {
      assert ShowInt(n) == "-" + ShowNat(-n);
      ParseNegativeShowNat(-n);
    } else {
      assert ShowInt(n) == ShowNat(n);
      ParseShowNat(n);
    }
  }

  lemma ParseShowNat(n: nat)
    ensures ParseDecimal(ShowNat(n)) == Some(n)
  {
    var s := ShowNat(n);
    assert IsDigit(s[0]);
    DigitsValueOfShowNat(n);
  }

  /** `strip()` leaves unpadded text alone. */
  lemma StripUnpadded(s: string)
    requires Unpadded(s)
    ensures Strip(s) == s
  {
    assert [] + s + [] == s;
    StripRemovesPadding([], s, []);
  }

  /** Stripping a sysfs line's trailing newline gives back its unpadded text. */
  lemma StripNewline(s: string)
    requires Unpadded(s)
    ensures Strip(s + "\n") == s
  {
    assert AllSpace("\n");
    assert [] + s + "\n" == s + "\n";
    StripRemovesPadding([], s, "\n");
  }

  /** Unicode spaces are stripped too: a no-break space before and an ideographic space after. */
  lemma StripUnicodeSpaces()
    ensures Strip("\U{A0}Intel\U{3000}") == "Intel"
  {
    assert AllSpace("\U{A0}") && AllSpace("\U{3000}");
    assert "\U{A0}" + "Intel" + "\U{3000}" == "\U{A0}Intel\U{3000}";
    StripRemovesPadding("\U{A0}", "Intel", "\U{3000}");
  }

  /** `int(f"{n}") == n` for n >= 0, through `int()`'s own stripping. */
  lemma PyIntOfShowNat(n: nat)
    ensures PyInt(ShowNat(n)) == Some(n)
  {
    var s := ShowNat(n);
    assert Unpadded(s) by {
      assert IsDigit(s[0]) && IsDigit(s[|s| - 1]);
    }
    StripUnpadded(s);
    ParseShowNat(n);
  }

  lemma ParseNegativeShowNat(m: nat)
    ensures ParseDecimal("-" + ShowNat(m)) == Some(-(m as int))
  {
    var s := "-" + ShowNat(m);
    assert s[0] == '-' && s[1..] == ShowNat(m);
    DigitsValueOfShowNat(m);
  }

  /** Whitespace around a rendered integer is ignored by `int()`. */
  lemma PyIntOfPaddedShowInt(pre: string, n: int, post: string)
    requires AllSpace(pre) && AllSpace(post)
    ensures PyInt(pre + ShowInt(n) + post) == Some(n)
  {
    StripRemovesPadding(pre, ShowInt(n), post);
    ParseShowInt(n);
  }
}
