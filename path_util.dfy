/** The path string helpers of src/util.cc: SplitString, IsPathSeparator,
    NormalizeString and the POSIX PathResolve.

    Each loop is a method proved against a specification function on
    segments: SplitString against Tokens, NormalizeString against
    Normalized (split at separators, collapse, join), PathResolve against
    Resolved. The lemmas below state what those functions mean. */
module PathUtil {

  /** The two builds of util.cc: `#ifdef _WIN32` and the POSIX one. */
  datatype Platform = Posix | Windows

  /** `IsPathSeparator`: only '/' on POSIX; '/' or '\\' on Windows. */
  predicate IsPathSeparator(platform: Platform, c: char) {
    c == '/' || (platform == Windows && c == '\\')
  }

  lemma SeparatorsByPlatform(c: char)
    ensures IsPathSeparator(Posix, c) <==> c == '/'
    ensures IsPathSeparator(Windows, c) <==> c == '/' || c == '\\'
    ensures IsPathSeparator(Posix, c) ==> IsPathSeparator(Windows, c)
  {
  }

  /** `node::kPathSeparator`, the separator end-of-input stands for. */
  function PlatformSeparator(platform: Platform): (c: char)
    ensures IsPathSeparator(platform, c)
  {
    if platform == Windows then '\\' else '/'
  }

  // ---------------------------------------------------------------------
  // SplitString
  // ---------------------------------------------------------------------

  /** `std::find_first_of` from position `from`: the index of the first
      character at or after `from` that is one of `delim`, or |s|. */
  function FindFirstOf(s: string, delim: set<char>, from: nat): (k: nat)
    requires from <= |s|
    ensures from <= k <= |s|
    decreases |s| - from
  {
    if from == |s| then from
    else if s[from] in delim then from
    else FindFirstOf(s, delim, from + 1)
  }

  /** No character in `s[lo..hi]` is a delimiter. */
  predicate NoDelimiterIn(s: string, delim: set<char>, lo: nat, hi: nat)
    requires lo <= hi <= |s|
  {
    forall j :: lo <= j < hi ==> s[j] !in delim
  }

  /** find_first_of stops at a delimiter, or at the end, and passes over
      no delimiter on the way. */
  lemma {:induction false} FindFirstOfFinds(s: string, delim: set<char>, from: nat)
    requires from <= |s|
    ensures NoDelimiterIn(s, delim, from, FindFirstOf(s, delim, from))
    ensures FindFirstOf(s, delim, from) < |s| ==> s[FindFirstOf(s, delim, from)] in delim
    decreases |s| - from
  {
    if from < |s| && s[from] !in delim {
      FindFirstOfFinds(s, delim, from + 1);
    }
  }

  /** Conversely, the first delimiter at or after `from` (or the end) is
      what find_first_of returns. */
  lemma {:induction false} FindFirstOfAt(s: string, delim: set<char>, from: nat, k: nat)
    requires from <= k <= |s|
    requires NoDelimiterIn(s, delim, from, k)
    requires k < |s| ==> s[k] in delim
    ensures FindFirstOf(s, delim, from) == k
    decreases k - from
  {
    if from < k {
      FindFirstOfAt(s, delim, from + 1, k);
    }
  }

  /** Searching a suffix finds the same delimiter, counted from the
      suffix's start. */
  lemma FindFirstOfSuffix(s: string, delim: set<char>, from: nat)
    requires from <= |s|
    ensures FindFirstOf(s[from..], delim, 0) == FindFirstOf(s, delim, from) - from
  {
    var k := FindFirstOf(s, delim, from);
    FindFirstOfFinds(s, delim, from);
    FindFirstOfAt(s[from..], delim, 0, k - from);
  }

  /** The tokens SplitString produces: the maximal non-empty runs of
      characters that are not in `delim`, in order. */
  function Tokens(s: string, delim: set<char>): seq<string>
    decreases |s|
  {
    if s == [] then []
    else
      var k := FindFirstOf(s, delim, 0);
      var head := if k > 0 then [s[..k]] else [];
      if k == |s| then head else head + Tokens(s[k + 1..], delim)
  }

  predicate DelimiterFree(t: string, delim: set<char>) {
    forall j :: 0 <= j < |t| ==> t[j] !in delim
  }

  /** Every token is non-empty and holds no delimiter. */
  lemma {:induction false} TokensWellFormed(s: string, delim: set<char>)
    ensures forall k :: 0 <= k < |Tokens(s, delim)| ==>
      Tokens(s, delim)[k] != [] && DelimiterFree(Tokens(s, delim)[k], delim)
    decreases |s|
  {
    if s != [] {
      var k := FindFirstOf(s, delim, 0);
      FindFirstOfFinds(s, delim, 0);
      if k < |s| {
        TokensWellFormed(s[k + 1..], delim);
      }
    }
  }

  function Concat(ts: seq<string>): string {
    if ts == [] then [] else Concat(ts[..|ts| - 1]) + ts[|ts| - 1]
  }

  function Filter(s: string, delim: set<char>): string {
    if s == [] then [] else Filter(s[..|s| - 1], delim) + (if s[|s| - 1] in delim then [] else [s[|s| - 1]])
  }

  lemma {:induction false} ConcatAppend(a: seq<string>, b: seq<string>)
    ensures Concat(a + b) == Concat(a) + Concat(b)
    decreases |b|
  {
    if b == [] {
      assert a + b == a;
    } else {
      assert (a + b)[..|a + b| - 1] == a + b[..|b| - 1];
      ConcatAppend(a, b[..|b| - 1]);
    }
  }

  lemma {:induction false} FilterAppend(a: string, b: string, delim: set<char>)
    ensures Filter(a + b, delim) == Filter(a, delim) + Filter(b, delim)
    decreases |b|
  {
    if b == [] {
      assert a + b == a;
    } else {
      assert (a + b)[..|a + b| - 1] == a + b[..|b| - 1];
      FilterAppend(a, b[..|b| - 1], delim);
    }
  }

  lemma {:induction false} FilterDelimiterFree(t: string, delim: set<char>)
    requires DelimiterFree(t, delim)
    ensures Filter(t, delim) == t
    decreases |t|
  {
    if t != [] {
      FilterDelimiterFree(t[..|t| - 1], delim);
    }
  }

  lemma FilterAroundDelimiter(s: string, k: nat, delim: set<char>)
    requires k < |s| && s[k] in delim && DelimiterFree(s[..k], delim)
    ensures Filter(s, delim) == s[..k] + Filter(s[k + 1..], delim)
  {
    assert s == (s[..k] + [s[k]]) + s[k + 1..];
    FilterAppend(s[..k] + [s[k]], s[k + 1..], delim);
    FilterAppend(s[..k], [s[k]], delim);
    FilterDelimiterFree(s[..k], delim);
    assert [s[k]][..0] == [];
  }

  /** Nothing but the delimiters is lost: the tokens, concatenated, are the
      input with every delimiter character removed. */
  lemma {:induction false} TokensKeepEverythingElse(s: string, delim: set<char>)
    ensures Concat(Tokens(s, delim)) == Filter(s, delim)
    decreases |s|
  {
    if s != [] {
      var k := FindFirstOf(s, delim, 0);
      FindFirstOfFinds(s, delim, 0);
      var head: seq<string> := if k > 0 then [s[..k]] else [];
      assert Concat(head) == s[..k] by {
        if k > 0 { assert head[..0] == []; }
      }
      assert DelimiterFree(s[..k], delim);
      if k == |s| {
        assert s[..k] == s;
        FilterDelimiterFree(s, delim);
      } else {
        var rest := s[k + 1..];
        TokensKeepEverythingElse(rest, delim);
        ConcatAppend(head, Tokens(rest, delim));
        FilterAroundDelimiter(s, k, delim);
      }
    }
  }

  /** Joins tokens with one delimiter character between neighbours. */
  function JoinWith(ts: seq<string>, d: char): string {
    if ts == [] then [] else if |ts| == 1 then ts[0] else ts[0] + [d] + JoinWith(ts[1..], d)
  }

  /** Splitting is the inverse of joining non-empty, delimiter-free
      tokens with a delimiter. */
  lemma {:induction false} TokensOfJoin(ts: seq<string>, d: char, delim: set<char>)
    requires d in delim
    requires forall k :: 0 <= k < |ts| ==> ts[k] != [] && DelimiterFree(ts[k], delim)
    ensures Tokens(JoinWith(ts, d), delim) == ts
    decreases |ts|
  {
    if ts != [] {
      var s := JoinWith(ts, d);
      var t := ts[0];
      if |ts| == 1 {
        assert s == t && s[..|t|] == t;
        FindFirstOfAt(s, delim, 0, |t|);
      } else {
        var rest := JoinWith(ts[1..], d);
        assert s == (t + [d]) + rest;
        assert s[..|t|] == t && s[|t|] == d && s[|t| + 1..] == rest;
        FindFirstOfAt(s, delim, 0, |t|);
        TokensOfJoin(ts[1..], d, delim);
        assert ts == [t] + ts[1..];
      }
    }
  }

  /** Unfolds Tokens once, for a non-empty input. */
  lemma TokensUnfold(t: string, delim: set<char>, k: nat)
    requires t != [] && k == FindFirstOf(t, delim, 0)
    ensures Tokens(t, delim) ==
      (if k > 0 then [t[..k]] else []) + (if k < |t| then Tokens(t[k + 1..], delim) else [])
  {
    var head := if k > 0 then [t[..k]] else [];
    if k == |t| {
      assert head + [] == head;
    }
  }

  /** What SplitString's loop keeps: the tokens collected so far, followed
      by the tokens of the input from `first` on, are all the tokens. */
  predicate SplitProgress(input: string, delim: set<char>, out: seq<string>, first: nat, all: seq<string>)
  {
    (first <= |input| ==> out + Tokens(input[first..], delim) == all) &&
    (first == |input| + 1 ==> out == all)
  }

  /** A pass that ends at a delimiter at `second` moves the token before
      it, if any, to `out`. */
  lemma SplitAdvance(input: string, delim: set<char>, out: seq<string>, first: nat, second: nat, all: seq<string>)
    requires first < second < |input| && second == FindFirstOf(input, delim, first)
    requires out + Tokens(input[first..], delim) == all
    ensures SplitProgress(input, delim, out + [input[first..second]], second + 1, all)
  {
    var t := input[first..];
    FindFirstOfSuffix(input, delim, first);
    TokensUnfold(t, delim, second - first);
    assert t[..second - first] == input[first..second];
    assert t[second - first + 1..] == input[second + 1..];
    var tail := Tokens(input[second + 1..], delim);
    assert out + ([input[first..second]] + tail) == (out + [input[first..second]]) + tail;
  }

  /** A pass that ends at the end of the input moves the last token to
      `out`. */
  lemma SplitFinish(input: string, delim: set<char>, out: seq<string>, first: nat, all: seq<string>)
    requires first < |input| && |input| == FindFirstOf(input, delim, first)
    requires out + Tokens(input[first..], delim) == all
    ensures SplitProgress(input, delim, out + [input[first..|input|]], |input| + 1, all)
  {
    var t := input[first..];
    FindFirstOfSuffix(input, delim, first);
    TokensUnfold(t, delim, |input| - first);
    assert t[..|input| - first] == input[first..|input|];
    var none: seq<string> := [];
    assert [input[first..|input|]] + none == [input[first..|input|]];
    assert input[first..|input|] == input[first..];
  }

  /** A delimiter right at `first` adds no token. */
  lemma SplitSkip(input: string, delim: set<char>, out: seq<string>, first: nat, all: seq<string>)
    requires first < |input| && first == FindFirstOf(input, delim, first)
    requires out + Tokens(input[first..], delim) == all
    ensures SplitProgress(input, delim, out, first + 1, all)
  {
    var t := input[first..];
    FindFirstOfSuffix(input, delim, first);
    TokensUnfold(t, delim, 0);
    assert t[1..] == input[first + 1..];
    var none: seq<string> := [];
    assert none + Tokens(input[first + 1..], delim) == Tokens(input[first + 1..], delim);
  }

  /** `SplitString(in, delim)`: the loop of util.cc, advancing `first` past
      each delimiter found by find_first_of. */
  method SplitString(input: string, delim: set<char>) returns (out: seq<string>)
    ensures out == Tokens(input, delim)
    ensures input == [] ==> out == []
  {
    out := [];
    var n := |input|;
    var first := 0;
    var second := 0;
    ghost var all := Tokens(input, delim);
    assert input[0..] == input;
    while second != n && first != n
      invariant 0 <= second <= n && 0 <= first <= n + 1
      invariant (first == 0 && second == 0) || first == second + 1
      invariant SplitProgress(input, delim, out, first, all)
      decreases n + 1 - first
    {
      second := FindFirstOf(input, delim, first);
      if first != second {
        if second < n {
          SplitAdvance(input, delim, out, first, second, all);
        } else {
          SplitFinish(input, delim, out, first, all);
        }
        out := out + [input[first..second]];
      } else {
        SplitSkip(input, delim, out, first, all);
      }
      first := second + 1;
    }
    if first == n {
      assert input[first..] == [] && out + [] == out;
    }
  }

  // ---------------------------------------------------------------------
  // NormalizeString
  // ---------------------------------------------------------------------

  predicate SeparatorFree(platform: Platform, s: string) {
    forall j :: 0 <= j < |s| ==> !IsPathSeparator(platform, s[j])
  }

  /** The segments of `p` between separators, empty ones included; the end
      of the input closes the last segment. */
  function Split(p: string, platform: Platform): (r: seq<string>)
    ensures |r| >= 1
    decreases |p|
  {
    if p == [] then [""]
    else
      var init := Split(p[..|p| - 1], platform);
      var c := p[|p| - 1];
      if IsPathSeparator(platform, c) then init + [""]
      else init[..|init| - 1] + [init[|init| - 1] + [c]]
  }

  lemma {:induction false} SplitSegmentsSeparatorFree(p: string, platform: Platform)
    ensures forall k :: 0 <= k < |Split(p, platform)| ==> SeparatorFree(platform, Split(p, platform)[k])
    decreases |p|
  {
    if p != [] {
      SplitSegmentsSeparatorFree(p[..|p| - 1], platform);
    }
  }

  /** One segment's effect on the segments kept so far: empty and "."
      segments are dropped; ".." removes the last kept segment unless there
      is none or it is itself "..", and is otherwise kept only when
      `allowAboveRoot` holds; any other segment is appended. */
  function Step(kept: seq<string>, seg: string, allowAboveRoot: bool): seq<string> {
    if seg == "" || seg == "." then kept
    else if seg == ".." then
      if |kept| > 0 && kept[|kept| - 1] != ".." then kept[..|kept| - 1]
      else if allowAboveRoot then kept + [".."]
      else kept
    else kept + [seg]
  }

  /** The segments kept after all of `segs`, left to right. */
  function Collapse(segs: seq<string>, allowAboveRoot: bool): seq<string>
    decreases |segs|
  {
    if segs == [] then []
    else Step(Collapse(segs[..|segs| - 1], allowAboveRoot), segs[|segs| - 1], allowAboveRoot)
  }

  function Join(kept: seq<string>, sep: char): string
    decreases |kept|
  {
    if kept == [] then ""
    else if |kept| == 1 then kept[0]
    else Join(kept[..|kept| - 1], sep) + [sep] + kept[|kept| - 1]
  }

  /** Join for two or more segments: the join of all but the last, a
      separator, then the last. */
  lemma JoinLast(kept: seq<string>, sep: char)
    requires |kept| >= 2
    ensures Join(kept, sep) == Join(kept[..|kept| - 1], sep) + [sep] + kept[|kept| - 1]
  {
  }

  /** What NormalizeString returns. */
  function Normalized(path: string, allowAboveRoot: bool, sep: char, platform: Platform): string {
    Join(Collapse(Split(path, platform), allowAboveRoot), sep)
  }

  function LastLength(kept: seq<string>): nat {
    if kept == [] then 0 else |kept[|kept| - 1]|
  }

  /** Every kept segment is non-empty and free of separators. */
  predicate WellFormed(platform: Platform, kept: seq<string>) {
    forall k :: 0 <= k < |kept| ==> kept[k] != "" && SeparatorFree(platform, kept[k])
  }

  lemma WellFormedInit(platform: Platform, kept: seq<string>)
    requires WellFormed(platform, kept) && kept != []
    ensures WellFormed(platform, kept[..|kept| - 1])
  {
    var init := kept[..|kept| - 1];
    forall k | 0 <= k < |init| ensures init[k] != "" && SeparatorFree(platform, init[k]) {
      assert init[k] == kept[k];
    }
  }

  /** -1 when all characters are '.', else their count: the `dots`
      variable of the loop. */
  function DotCount(s: string): int
    decreases |s|
  {
    if s == [] then 0
    else
      var d := DotCount(s[..|s| - 1]);
      if s[|s| - 1] == '.' && d != -1 then d + 1 else -1
  }

  lemma {:induction false} DotCountAllDots(s: string)
    ensures DotCount(s) == -1 || (DotCount(s) == |s| && forall j :: 0 <= j < |s| ==> s[j] == '.')
    decreases |s|
  {
    if s != [] {
      DotCountAllDots(s[..|s| - 1]);
    }
  }

  lemma DotCountNames(s: string)
    ensures DotCount(s) == 1 <==> s == "."
    ensures DotCount(s) == 2 <==> s == ".."
  {
    DotCountAllDots(s);
    if s == "." {
      assert s[..0] == [];
    }
    if s == ".." {
      assert s[..1] == "." && s[..1][..0] == [];
    }
  }

  /** `std::string::find_last_of` for one character; -1 stands for npos. */
  function FindLastOf(s: string, c: char): (r: int)
    ensures -1 <= r < |s|
    ensures r >= 0 ==> s[r] == c
    ensures forall j :: r < j < |s| ==> s[j] != c
    decreases |s|
  {
    if s == [] then -1
    else if s[|s| - 1] == c then |s| - 1
    else FindLastOf(s[..|s| - 1], c)
  }

  /** What the joined string reveals of its last segment: where the last
      separator is, and that the string ends with that segment. */
  lemma JoinLastSegment(platform: Platform, kept: seq<string>, sep: char)
    requires IsPathSeparator(platform, sep)
    requires WellFormed(platform, kept) && |kept| >= 1
    ensures |Join(kept, sep)| >= 2 * |kept| - 1
    ensures |kept| == 1 ==> Join(kept, sep) == kept[0] && FindLastOf(Join(kept, sep), sep) == -1
    ensures |kept| >= 2 ==>
      FindLastOf(Join(kept, sep), sep) == |Join(kept[..|kept| - 1], sep)| &&
      Join(kept, sep)[..|Join(kept[..|kept| - 1], sep)|] == Join(kept[..|kept| - 1], sep)
    ensures var s := Join(kept, sep); var l := kept[|kept| - 1];
      |s| >= |l| && s[|s| - |l|..] == l
  {
    var s := Join(kept, sep);
    var l := kept[|kept| - 1];
    if |kept| == 1 {
      assert forall j :: 0 <= j < |s| ==> s[j] != sep;
      assert s[|s| - |l|..] == l;
    } else {
      var init := kept[..|kept| - 1];
      WellFormedInit(platform, kept);
      JoinLastSegment(platform, init, sep);
      var a := Join(init, sep);
      assert s == a + [sep] + l;
      assert s[|a|] == sep;
      forall j | |a| < j < |s| ensures s[j] != sep {
        assert s[j] == l[j - |a| - 1];
      }
      assert FindLastOf(s, sep) == |a|;
      assert s[..|a|] == a;
      assert s[|s| - |l|..] == l;
    }
  }

  /** `res` and `lastSegmentLength` are what NormalizeString has emitted
      for the segments `kept`: their join, and the last one's length. */
  predicate Emitted(platform: Platform, separator: char, kept: seq<string>, res: string, lastSegmentLength: int) {
    WellFormed(platform, kept) && res == Join(kept, separator) && lastSegmentLength == LastLength(kept)
  }

  /** The body of NormalizeString's loop when a segment ends at a
      separator (or at the end of the input): `res` and `lastSegmentLength`
      are updated for the segment `seg`, whose `dots` count the loop kept. */
  method CloseSegment(res: string, lastSegmentLength: int, seg: string, dots: int,
                      allowAboveRoot: bool, separator: char, platform: Platform, ghost kept: seq<string>)
    returns (res': string, lastSegmentLength': int)
    requires IsPathSeparator(platform, separator)
    requires Emitted(platform, separator, kept, res, lastSegmentLength)
    requires SeparatorFree(platform, seg) && dots == DotCount(seg)
    ensures Emitted(platform, separator, Step(kept, seg, allowAboveRoot), res', lastSegmentLength')
  {
    DotCountNames(seg);
    res', lastSegmentLength' := res, lastSegmentLength;
    if |seg| == 0 || dots == 1 {
      // an empty or "." segment: nothing to do
    } else if dots == 2 {
      res', lastSegmentLength' := ParentSegment(res, lastSegmentLength, allowAboveRoot, separator, platform, kept);
    } else {
      if |res| > 0 {
        res' := res + [separator] + seg;
      } else {
        res' := seg;
      }
      lastSegmentLength' := |seg|;
    }
  }

  /** A ".." segment: drop the last kept segment unless it is ".." or there
      is none, in which case ".." is kept only when `allowAboveRoot`. */
  method ParentSegment(res: string, lastSegmentLength: int, allowAboveRoot: bool, separator: char,
                       platform: Platform, ghost kept: seq<string>)
    returns (res': string, lastSegmentLength': int)
    requires IsPathSeparator(platform, separator)
    requires WellFormed(platform, kept)
    requires res == Join(kept, separator) && lastSegmentLength == LastLength(kept)
    ensures WellFormed(platform, Step(kept, "..", allowAboveRoot))
    ensures res' == Join(Step(kept, "..", allowAboveRoot), separator)
    ensures lastSegmentLength' == LastLength(Step(kept, "..", allowAboveRoot))
  {
    var len := |res|;
    if kept != [] {
      JoinLastSegment(platform, kept, separator);
    }
    if len < 2 || lastSegmentLength != 2 || res[len - 1] != '.' || res[len - 2] != '.' {
      // the last kept segment, if any, is not ".."
      if len > 2 {
        res', lastSegmentLength' := DropLastSegment(res, separator, platform, kept);
        return;
      } else if len != 0 {
        assert |kept| == 1;
        res', lastSegmentLength' := "", 0;
        return;
      }
    } else {
      assert res[len - 2..] == "..";
    }
    res', lastSegmentLength' := KeepParent(res, lastSegmentLength, allowAboveRoot, separator, platform, kept);
  }

  /** The branch of a ".." segment that has nothing to remove: it is kept
      only when `allowAboveRoot`. */
  method KeepParent(res: string, lastSegmentLength: int, allowAboveRoot: bool, separator: char,
                    platform: Platform, ghost kept: seq<string>)
    returns (res': string, lastSegmentLength': int)
    requires WellFormed(platform, kept) && (kept == [] || kept[|kept| - 1] == "..")
    requires res == Join(kept, separator) && lastSegmentLength == LastLength(kept)
    ensures WellFormed(platform, Step(kept, "..", allowAboveRoot))
    ensures res' == Join(Step(kept, "..", allowAboveRoot), separator)
    ensures lastSegmentLength' == LastLength(Step(kept, "..", allowAboveRoot))
  {
    res', lastSegmentLength' := res, lastSegmentLength;
    if allowAboveRoot {
      assert (kept + [".."])[..|kept|] == kept;
      assert kept != [] ==> res != [];
      res' := res + (if |res| > 0 then [separator] + ".." else "..");
      lastSegmentLength' := 2;
    }
  }

  /** The branch of a ".." segment that removes the last kept segment from
      a result longer than two characters. */
  method DropLastSegment(res: string, separator: char, platform: Platform, ghost kept: seq<string>)
    returns (res': string, lastSegmentLength': int)
    requires IsPathSeparator(platform, separator)
    requires WellFormed(platform, kept) && |kept| >= 1
    requires res == Join(kept, separator)
    ensures WellFormed(platform, kept[..|kept| - 1])
    ensures res' == Join(kept[..|kept| - 1], separator)
    ensures lastSegmentLength' == LastLength(kept[..|kept| - 1])
  {
    JoinLastSegment(platform, kept, separator);
    var lastSlashIndex := FindLastOf(res, separator);
    ghost var init := kept[..|kept| - 1];
    assert WellFormed(platform, init);
    if lastSlashIndex == -1 {
      res' := "";
      lastSegmentLength' := 0;
    } else {
      res' := res[..lastSlashIndex];
      var len := |res'|;
      if init != [] {
        JoinLastSegment(platform, init, separator);
      }
      // find_last_of yields npos when there is no separator; the size_t
      // subtraction then wraps round to `len`
      var k := FindLastOf(res', separator);
      lastSegmentLength' := if k == -1 then len else len - 1 - k;
    }
  }

  /** Where NormalizeString's scan stands after the first `i` characters:
      the segments `done` are closed, the open one starts after
      `lastSlash`, and `dots` is the open segment's DotCount. */
  predicate Scanned(path: string, platform: Platform, i: int, lastSlash: int, done: seq<string>, dots: int) {
    -1 <= lastSlash < i <= |path| &&
    Split(path[..i], platform) == done + [path[lastSlash + 1..i]] &&
    dots == DotCount(path[lastSlash + 1..i])
  }

  /** A character that is not a separator extends the open segment. */
  lemma SegmentGrows(path: string, i: nat, lastSlash: int, done: seq<string>, dots: int, platform: Platform)
    requires Scanned(path, platform, i, lastSlash, done, dots)
    requires i < |path| && !IsPathSeparator(platform, path[i])
    ensures Scanned(path, platform, i + 1, lastSlash, done,
                    if path[i] == '.' && dots != -1 then dots + 1 else -1)
  {
    var seg := path[lastSlash + 1..i];
    assert path[..i + 1][..i] == path[..i];
    assert path[lastSlash + 1..i + 1] == seg + [path[i]];
    assert (seg + [path[i]])[..|seg|] == seg;
    assert (done + [seg])[..|done|] == done;
  }

  /** A separator closes the open segment and opens an empty one. */
  lemma SegmentCloses(path: string, i: nat, lastSlash: int, done: seq<string>, dots: int, platform: Platform)
    requires Scanned(path, platform, i, lastSlash, done, dots)
    requires i < |path| && IsPathSeparator(platform, path[i])
    ensures Scanned(path, platform, i + 1, i, done + [path[lastSlash + 1..i]], 0)
  {
    assert path[..i + 1][..i] == path[..i];
    assert path[i + 1..i + 1] == "";
  }

  /** A segment ends, at a separator or at the end of the input: it joins
      the segments done, and Collapse takes one more Step. */
  lemma SegmentEnds(path: string, i: nat, lastSlash: int, done: seq<string>, dots: int,
                    allowAboveRoot: bool, platform: Platform)
    requires Scanned(path, platform, i, lastSlash, done, dots)
    requires i < |path| ==> IsPathSeparator(platform, path[i])
    ensures var seg := path[lastSlash + 1..i];
      SeparatorFree(platform, seg) && dots == DotCount(seg) &&
      Collapse(done + [seg], allowAboveRoot) == Step(Collapse(done, allowAboveRoot), seg, allowAboveRoot) &&
      (i < |path| ==> Scanned(path, platform, i + 1, i, done + [seg], 0)) &&
      (i == |path| ==> done + [seg] == Split(path, platform))
  {
    var seg := path[lastSlash + 1..i];
    SplitSegmentsSeparatorFree(path[..i], platform);
    assert seg == Split(path[..i], platform)[|done|];
    assert (done + [seg])[..|done|] == done;
    if i < |path| {
      SegmentCloses(path, i, lastSlash, done, dots, platform);
    } else {
      assert path[..i] == path;
    }
  }

  /** NormalizeString in the loop form of util.cc: `res`,
      `lastSegmentLength`, `lastSlash` and `dots` are updated character by
      character, end-of-input counting as one more separator. */
  method NormalizeString(path: string, allowAboveRoot: bool, separator: char, platform: Platform)
    returns (res: string)
    requires IsPathSeparator(platform, separator)
    ensures res == Normalized(path, allowAboveRoot, separator, platform)
  {
    res := "";
    var lastSegmentLength := 0;
    var lastSlash := -1;
    var dots := 0;
    var n := |path|;
    ghost var done: seq<string> := [];
    var i := 0;
    while i <= n
      invariant 0 <= i <= n + 1
      invariant -1 <= lastSlash < i
      invariant i <= n ==> Scanned(path, platform, i, lastSlash, done, dots)
      invariant i == n + 1 ==> done == Split(path, platform)
      invariant Emitted(platform, separator, Collapse(done, allowAboveRoot), res, lastSegmentLength)
    {
      var code := if i < n then path[i] else PlatformSeparator(platform);
      assert i < n ==> code == path[i];
      if IsPathSeparator(platform, code) {
        var seg := path[lastSlash + 1..i];
        SegmentEnds(path, i, lastSlash, done, dots, allowAboveRoot, platform);
        res, lastSegmentLength := CloseSegment(res, lastSegmentLength, seg, dots, allowAboveRoot,
                                               separator, platform, Collapse(done, allowAboveRoot));
        done := done + [seg];
        lastSlash := i;
        dots := 0;
      } else {
        SegmentGrows(path, i, lastSlash, done, dots, platform);
        if code == '.' && dots != -1 {
          dots := dots + 1;
        } else {
          dots := -1;
        }
      }
      i := i + 1;
    }
  }

  // ---------------------------------------------------------------------
  // What Normalized means
  // ---------------------------------------------------------------------

  /** The segments Collapse keeps: never empty or ".", and ".." only as a
      leading run and only when `allowAboveRoot`. */
  predicate Clean(kept: seq<string>, allowAboveRoot: bool) {
    forall k :: 0 <= k < |kept| ==>
      kept[k] != "" && kept[k] != "." &&
      (kept[k] == ".." ==> allowAboveRoot && forall j :: 0 <= j < k ==> kept[j] == "..")
  }

  lemma {:induction false} CollapseClean(segs: seq<string>, allowAboveRoot: bool)
    ensures Clean(Collapse(segs, allowAboveRoot), allowAboveRoot)
    decreases |segs|
  {
    if segs != [] {
      var kept := Collapse(segs[..|segs| - 1], allowAboveRoot);
      CollapseClean(segs[..|segs| - 1], allowAboveRoot);
      var seg := segs[|segs| - 1];
      if seg == ".." && |kept| > 0 && kept[|kept| - 1] != ".." {
        var r := kept[..|kept| - 1];
        assert forall k :: 0 <= k < |r| ==> r[k] == kept[k];
      }
    }
  }

  /** Separator-free segments stay separator-free and non-empty. */
  lemma {:induction false} CollapseWellFormed(segs: seq<string>, allowAboveRoot: bool, platform: Platform)
    requires forall k :: 0 <= k < |segs| ==> SeparatorFree(platform, segs[k])
    ensures WellFormed(platform, Collapse(segs, allowAboveRoot))
    decreases |segs|
  {
    if segs != [] {
      var init := segs[..|segs| - 1];
      assert forall k :: 0 <= k < |init| ==> init[k] == segs[k];
      CollapseWellFormed(init, allowAboveRoot, platform);
      var kept := Collapse(init, allowAboveRoot);
      if |kept| > 0 {
        var r := kept[..|kept| - 1];
        assert forall k :: 0 <= k < |r| ==> r[k] == kept[k];
      }
    }
  }

  lemma CleanInit(kept: seq<string>, allowAboveRoot: bool)
    requires kept != [] && Clean(kept, allowAboveRoot)
    ensures Clean(kept[..|kept| - 1], allowAboveRoot)
  {
    var init := kept[..|kept| - 1];
    forall k | 0 <= k < |init|
      ensures init[k] != "" && init[k] != "." &&
        (init[k] == ".." ==> allowAboveRoot && forall j :: 0 <= j < k ==> init[j] == "..")
    {
      assert init[k] == kept[k];
      assert forall j :: 0 <= j < k ==> init[j] == kept[j];
    }
  }

  /** Segments that are already clean are kept as they are. */
  lemma {:induction false} CollapseClean_Identity(kept: seq<string>, allowAboveRoot: bool)
    requires Clean(kept, allowAboveRoot)
    ensures Collapse(kept, allowAboveRoot) == kept
    decreases |kept|
  {
    if kept != [] {
      var init := kept[..|kept| - 1];
      var last := kept[|kept| - 1];
      CleanInit(kept, allowAboveRoot);
      CollapseClean_Identity(init, allowAboveRoot);
      assert last != "" && last != ".";
      if last == ".." {
        assert init != [] ==> init[|init| - 1] == kept[|kept| - 2] == "..";
      }
      assert Step(init, last, allowAboveRoot) == init + [last];
      assert init + [last] == kept;
    }
  }

  /** A separator-free string is one segment. */
  lemma {:induction false} SplitOneSegment(b: string, platform: Platform)
    requires SeparatorFree(platform, b)
    ensures Split(b, platform) == [b]
    decreases |b|
  {
    if b != [] {
      SplitOneSegment(b[..|b| - 1], platform);
      assert b[..|b| - 1] + [b[|b| - 1]] == b;
    }
  }

  /** A separator followed by a separator-free tail adds the tail as one
      more segment. */
  lemma {:induction false} SplitAfterSeparator(a: string, sep: char, b: string, platform: Platform)
    requires IsPathSeparator(platform, sep) && SeparatorFree(platform, b)
    ensures Split(a + [sep] + b, platform) == Split(a, platform) + [b]
    decreases |b|
  {
    if b == [] {
      assert a + [sep] + b == a + [sep];
      assert (a + [sep])[..|a|] == a;
    } else {
      var b' := b[..|b| - 1];
      SplitAfterSeparator(a, sep, b', platform);
      var x := a + [sep] + b;
      assert x[..|x| - 1] == a + [sep] + b';
      assert !IsPathSeparator(platform, x[|x| - 1]);
      var init := Split(a, platform) + [b'];
      assert init[..|init| - 1] == Split(a, platform);
      assert b' + [b[|b| - 1]] == b;
    }
  }

  /** Splitting undoes Join for well-formed segments. */
  lemma {:induction false} SplitJoin(kept: seq<string>, sep: char, platform: Platform)
    requires IsPathSeparator(platform, sep)
    requires WellFormed(platform, kept) && kept != []
    ensures Split(Join(kept, sep), platform) == kept
    decreases |kept|
  {
    if |kept| == 1 {
      SplitOneSegment(kept[0], platform);
    } else {
      var init := kept[..|kept| - 1];
      WellFormedInit(platform, kept);
      SplitJoin(init, sep, platform);
      JoinLast(kept, sep);
      SplitAfterSeparator(Join(init, sep), sep, kept[|kept| - 1], platform);
      assert init + [kept[|kept| - 1]] == kept;
    }
  }

  /** The joined string has no separator at either end and never two in a
      row. */
  predicate Tidy(s: string, sep: char) {
    (s != [] ==> s[0] != sep && s[|s| - 1] != sep) &&
    forall j :: 0 <= j < |s| - 1 ==> !(s[j] == sep && s[j + 1] == sep)
  }

  lemma {:induction false} JoinTidy(kept: seq<string>, sep: char, platform: Platform)
    requires IsPathSeparator(platform, sep) && WellFormed(platform, kept)
    ensures Tidy(Join(kept, sep), sep)
    decreases |kept|
  {
    if |kept| == 1 {
      assert kept[0] != [] && !IsPathSeparator(platform, kept[0][0]);
    } else if |kept| > 1 {
      var init := kept[..|kept| - 1];
      WellFormedInit(platform, kept);
      JoinTidy(init, sep, platform);
      JoinLastSegment(platform, init, sep);
      var a := Join(init, sep);
      var l := kept[|kept| - 1];
      var s := Join(kept, sep);
      assert s == a + [sep] + l;
      assert a != [] && l != [];
      assert a[|a| - 1] != sep;
      assert l[0] != sep && l[|l| - 1] != sep;
      forall j | 0 <= j < |s| - 1
        ensures !(s[j] == sep && s[j + 1] == sep)
      {
        if j < |a| - 1 {
          assert s[j] == a[j] && s[j + 1] == a[j + 1];
        } else if j == |a| - 1 {
          assert s[j] == a[j];
        } else if j == |a| {
          assert s[j + 1] == l[0];
        } else {
          assert s[j] == l[j - |a| - 1];
        }
      }
    }
  }

  /** What NormalizeString's result looks like: a tidy string whose
      segments are clean. */
  lemma NormalizedShape(path: string, allowAboveRoot: bool, sep: char, platform: Platform)
    requires IsPathSeparator(platform, sep)
    ensures Tidy(Normalized(path, allowAboveRoot, sep, platform), sep)
    ensures var r := Normalized(path, allowAboveRoot, sep, platform);
      r == [] || Clean(Split(r, platform), allowAboveRoot)
  {
    var kept := Collapse(Split(path, platform), allowAboveRoot);
    SplitSegmentsSeparatorFree(path, platform);
    CollapseWellFormed(Split(path, platform), allowAboveRoot, platform);
    CollapseClean(Split(path, platform), allowAboveRoot);
    JoinTidy(kept, sep, platform);
    if kept != [] {
      SplitJoin(kept, sep, platform);
    }
  }

  /** Normalizing twice changes nothing. */
  lemma NormalizeIdempotent(path: string, allowAboveRoot: bool, sep: char, platform: Platform)
    requires IsPathSeparator(platform, sep)
    ensures var r := Normalized(path, allowAboveRoot, sep, platform);
      Normalized(r, allowAboveRoot, sep, platform) == r
  {
    var kept := Collapse(Split(path, platform), allowAboveRoot);
    SplitSegmentsSeparatorFree(path, platform);
    CollapseWellFormed(Split(path, platform), allowAboveRoot, platform);
    CollapseClean(Split(path, platform), allowAboveRoot);
    if kept == [] {
      assert Collapse([""], allowAboveRoot) == [];
    } else {
      SplitJoin(kept, sep, platform);
      CollapseClean_Identity(kept, allowAboveRoot);
    }
  }
}
