/** Extraction of the JSON or YAML payload from a language model's reply.

    The regular expressions of the extractors are written out as string predicates: a
    fenced block is ``` plus a language tag, white space ending in a newline, at least one
    character of content, and a newline followed by ```. Among all such blocks the one Go's
    leftmost-first matcher reports is `Preferred`: the earliest start, then the longest
    run of white space before the content, then the shortest content. */
module MetaUtils {
  import opened Text

  // ---------------------------------------------------------------------------------
  // Substrings and Go's prefix/suffix trimming

  lemma SliceIsSubstring(s: string, lo: nat, hi: nat)
    requires lo <= hi <= |s|
    ensures IsSubstring(s[lo..hi], s)
  {
    assert OccursAt(s[lo..hi], s, lo);
  }

  lemma WholeIsSubstring(s: string)
    ensures IsSubstring(s, s)
  {
    assert OccursAt(s, s, 0);
  }

  lemma SubstringTransitive(x: string, y: string, z: string)
    requires IsSubstring(x, y) && IsSubstring(y, z)
    ensures IsSubstring(x, z)
  {
    var i: nat :| OccursAt(x, y, i);
    var j: nat :| OccursAt(y, z, j);
    assert y == z[j..j + |y|];
    forall k | 0 <= k < |x|
      ensures z[j + i + k] == x[k]
    {
      assert x[k] == y[i + k];
    }
    assert z[j + i..j + i + |x|] == x;
    assert OccursAt(x, z, j + i);
  }

  lemma TrimSpaceIsSubstring(s: string)
    ensures IsSubstring(TrimSpace(s), s)
  {
    var b := TrimBounds(s, Go);
    SliceIsSubstring(s, b.0, b.1);
  }

  /** No white space (in the sense of Go's `unicode.IsSpace`) at either end. */
  predicate IsTrimmed(x: string)
  {
    x == [] || (!IsSpace(x[0], Go) && !IsSpace(x[|x| - 1], Go))
  }

  lemma TrimSpaceIsTrimmed(s: string)
    ensures IsTrimmed(TrimSpace(s))
  {
  }

  /** Go's `strings.TrimPrefix`. */
  function TrimPrefix(s: string, p: string): (r: string)
    ensures HasPrefix(s, p) ==> s == p + r
    ensures !HasPrefix(s, p) ==> r == s
  {
    if HasPrefix(s, p) then s[|p|..] else s
  }

  /** Go's `strings.TrimSuffix`. */
  function TrimSuffix(s: string, p: string): (r: string)
    ensures HasSuffix(s, p) ==> s == r + p
    ensures !HasSuffix(s, p) ==> r == s
  {
    if HasSuffix(s, p) then s[..|s| - |p|] else s
  }

  lemma TrimPrefixIsSubstring(s: string, p: string)
    ensures IsSubstring(TrimPrefix(s, p), s)
  {
    if HasPrefix(s, p) {
      assert s[|p|..|s|] == TrimPrefix(s, p);
      assert OccursAt(TrimPrefix(s, p), s, |p|);
    } else {
      WholeIsSubstring(s);
    }
  }

  lemma TrimSuffixIsSubstring(s: string, p: string)
    ensures IsSubstring(TrimSuffix(s, p), s)
  {
    if HasSuffix(s, p) {
      assert TrimSuffix(s, p) == s[..|s| - |p|];
      SliceIsSubstring(s, 0, |s| - |p|);
    } else {
      WholeIsSubstring(s);
    }
  }

  // ---------------------------------------------------------------------------------
  // Fenced code blocks

  /** The three fence patterns: ```json, ```yaml or ```yml, and a bare ```. */
  datatype Fence = JsonFence | YamlFence | AnyFence

  /** The length of the opening marker of fence `f` at position `p` of `s`, if one is there. */
  function OpenerAt(s: string, p: nat, f: Fence): (n: Option<nat>)
    ensures n.Some? ==> p + n.value <= |s|
  {
    var rest := s[if p <= |s| then p else |s|..];
    match f
    case JsonFence => if HasPrefix(rest, "```json") then Some(7) else None
    case YamlFence =>
      if HasPrefix(rest, "```yaml") then Some(7)
      else if HasPrefix(rest, "```yml") then Some(6) else None
    case AnyFence => if HasPrefix(rest, "```") then Some(3) else None
  }

  /** A closing marker, a newline followed by ```, at position `k`. */
  predicate CloseAt(s: string, k: nat)
  {
    k + 4 <= |s| && s[k] == '\n' && s[k + 1] == '`' && s[k + 2] == '`' && s[k + 3] == '`'
  }

  /** One way the fence pattern matches: the opener at `start`, white space up to the
      newline at `newline`, content `s[newline + 1..close]` of at least one character, and
      the closing marker at `close`. */
  datatype FenceMatch = FenceMatch(start: nat, newline: nat, close: nat)

  predicate MatchesAt(s: string, f: Fence, m: FenceMatch)
  {
    OpenerAt(s, m.start, f).Some? &&
    m.start + OpenerAt(s, m.start, f).value <= m.newline < |s| &&
    (forall k :: m.start + OpenerAt(s, m.start, f).value <= k < m.newline ==> IsRegexSpace(s[k])) &&
    s[m.newline] == '\n' && m.newline + 2 <= m.close && CloseAt(s, m.close)
  }

  /** The match Go's leftmost-first semantics reports: earliest start; at that start the
      greedy white space reaches the latest newline that still lets the rest match; then
      the lazy content stops at the first closing marker. */
  ghost predicate Preferred(s: string, f: Fence, m: FenceMatch)
  {
    MatchesAt(s, f, m) &&
    (forall m' :: MatchesAt(s, f, m') ==> m.start <= m'.start) &&
    (forall m' :: MatchesAt(s, f, m') && m'.start == m.start ==> m'.newline <= m.newline) &&
    (forall m' :: MatchesAt(s, f, m') && m'.start == m.start && m'.newline == m.newline ==>
                    m.close <= m'.close)
  }

  /** The first closing marker at or after `from`. */
  function FirstClose(s: string, from: nat): (r: Option<nat>)
    ensures r.Some? ==> from <= r.value && CloseAt(s, r.value) &&
                        forall k :: from <= k < r.value ==> !CloseAt(s, k)
    ensures r.None? ==> forall k :: from <= k ==> !CloseAt(s, k)
    decreases |s| - from
  {
    if from + 4 > |s| then None
    else if CloseAt(s, from) then Some(from)
    else FirstClose(s, from + 1)
  }

  /** One past the run of regular-expression white space that starts at `q`. */
  function SpaceRunEnd(s: string, q: nat): (r: nat)
    requires q <= |s|
    ensures q <= r <= |s|
    ensures forall k :: q <= k < r ==> IsRegexSpace(s[k])
    ensures r < |s| ==> !IsRegexSpace(s[r])
    decreases |s| - q
  {
    if q == |s| || !IsRegexSpace(s[q]) then q else SpaceRunEnd(s, q + 1)
  }

  /** The latest newline in `s[q..hi]` after which a closing marker follows at distance two
      or more, with that first marker. */
  function PickNewline(s: string, q: nat, hi: nat): (r: Option<(nat, nat)>)
    requires q <= hi <= |s|
    ensures r.Some? ==> q <= r.value.0 < hi && s[r.value.0] == '\n' &&
                        FirstClose(s, r.value.0 + 2) == Some(r.value.1)
    decreases hi
  {
    if hi == q then None
    else if s[hi - 1] == '\n' && FirstClose(s, hi + 1).Some? then Some((hi - 1, FirstClose(s, hi + 1).value))
    else PickNewline(s, q, hi - 1)
  }

  /** No newline after the one `PickNewline` picks (or none at all, when it picks none)
      is followed by a closing marker. */
  predicate PicksLatest(s: string, q: nat, hi: nat)
    requires q <= hi <= |s|
  {
    var lo := if PickNewline(s, q, hi).Some? then PickNewline(s, q, hi).value.0 + 1 else q;
    forall j :: lo <= j < hi && s[j] == '\n' ==> FirstClose(s, j + 2).None?
  }

  lemma {:induction false} PickNewlineLatest(s: string, q: nat, hi: nat)
    requires q <= hi <= |s|
    ensures PicksLatest(s, q, hi)
    decreases hi
  {
    if hi > q && !(s[hi - 1] == '\n' && FirstClose(s, hi + 1).Some?) {
      PickNewlineLatest(s, q, hi - 1);
      PickNewlineSkip(s, q, hi);
    }
  }

  /** Where the last position is not a newline followed by a marker, the pick and the claim
      carry over from the shorter range. */
  lemma PickNewlineSkip(s: string, q: nat, hi: nat)
    requires q < hi <= |s|
    requires !(s[hi - 1] == '\n' && FirstClose(s, hi + 1).Some?)
    requires PicksLatest(s, q, hi - 1)
    ensures PicksLatest(s, q, hi)
  {
    var r := PickNewline(s, q, hi);
    assert r == PickNewline(s, q, hi - 1);
    var lo := if r.Some? then r.value.0 + 1 else q;
    forall j | lo <= j < hi && s[j] == '\n' ensures FirstClose(s, j + 2).None? {
      if j == hi - 1 {
        assert j + 2 == hi + 1;
      }
    }
  }

  /** The match `PickNewline` finds for an opener at `start`, if any. */
  function PickAt(s: string, f: Fence, start: nat): (r: Option<FenceMatch>)
    ensures r.Some? ==> r.value.start == start && r.value.newline + 2 <= r.value.close &&
                        CloseAt(s, r.value.close)
  {
    match OpenerAt(s, start, f)
    case None => None
    case Some(n) =>
      match PickNewline(s, start + n, SpaceRunEnd(s, start + n))
      case Some(jc) => Some(FenceMatch(start, jc.0, jc.1))
      case None => None
  }

  /** The fence search from position `p` on: try each start in turn. */
  function FindFenceFrom(s: string, f: Fence, p: nat): (r: Option<FenceMatch>)
    ensures r.Some? ==> p <= r.value.start && PickAt(s, f, r.value.start) == r
    ensures r.None? ==> forall k :: p <= k < |s| ==> PickAt(s, f, k).None?
    decreases |s| - p
  {
    if p >= |s| then None
    else if PickAt(s, f, p).Some? then PickAt(s, f, p)
    else FindFenceFrom(s, f, p + 1)
  }

  /** `FindStringSubmatch` for the fence pattern of `f`. */
  function FindFence(s: string, f: Fence): (r: Option<FenceMatch>)
    ensures r.Some? ==> PickAt(s, f, r.value.start) == r
    ensures r.None? ==> forall k :: 0 <= k < |s| ==> PickAt(s, f, k).None?
  {
    FindFenceFrom(s, f, 0)
  }

  /** A match starting at `start` has its newline in the white-space run after the opener,
      and a first closing marker no later than its own. */
  lemma MatchesAtStart(s: string, f: Fence, m: FenceMatch)
    requires MatchesAt(s, f, m)
    ensures var q := m.start + OpenerAt(s, m.start, f).value;
            m.newline < SpaceRunEnd(s, q) && FirstClose(s, m.newline + 2).Some? &&
            FirstClose(s, m.newline + 2).value <= m.close
  {
  }

  /** What `PickAt` finds at a start is the preferred match among those with that start,
      and it finds nothing exactly when no match has that start. */
  lemma PickAtCorrect(s: string, f: Fence, start: nat)
    ensures PickAt(s, f, start).Some? ==>
              var m := PickAt(s, f, start).value;
              MatchesAt(s, f, m) &&
              (forall m' :: MatchesAt(s, f, m') && m'.start == start ==> m'.newline <= m.newline) &&
              (forall m' :: (MatchesAt(s, f, m') && m'.start == start && m'.newline == m.newline) ==>
                              m.close <= m'.close)
    ensures PickAt(s, f, start).None? ==> forall m' :: MatchesAt(s, f, m') ==> m'.start != start
  {
    if PickAt(s, f, start).Some? {
      PickAtMatches(s, f, start);
      var m := PickAt(s, f, start).value;
      forall m' | MatchesAt(s, f, m') && m'.start == start
        ensures m'.newline <= m.newline && (m'.newline == m.newline ==> m.close <= m'.close)
      {
        PickAtBeats(s, f, m');
      }
    } else {
      forall m' | MatchesAt(s, f, m')
        ensures m'.start != start
      {
        PickAtBeats(s, f, m');
      }
    }
  }

  lemma PickAtMatches(s: string, f: Fence, start: nat)
    requires PickAt(s, f, start).Some?
    ensures MatchesAt(s, f, PickAt(s, f, start).value)
  {
    var q := start + OpenerAt(s, start, f).value;
    var m := PickAt(s, f, start).value;
    assert m.newline < SpaceRunEnd(s, q);
  }

  /** Any match is found by `PickAt` at its start, and has no later newline and, at the same
      newline, no earlier closing marker. */
  lemma PickAtBeats(s: string, f: Fence, m': FenceMatch)
    requires MatchesAt(s, f, m')
    ensures PickAt(s, f, m'.start).Some?
    ensures m'.newline <= PickAt(s, f, m'.start).value.newline
    ensures m'.newline == PickAt(s, f, m'.start).value.newline ==> PickAt(s, f, m'.start).value.close <= m'.close
  {
    var q := m'.start + OpenerAt(s, m'.start, f).value;
    var hi := SpaceRunEnd(s, q);
    MatchesAtStart(s, f, m');
    PickNewlineLatest(s, q, hi);
    PickNewlineCovers(s, q, hi, m'.newline);
    PickAtFromNewline(s, f, m'.start);
  }

  /** With an opener at `start`, `PickAt` reports the pick of `PickNewline` over the white
      space after it. */
  lemma PickAtFromNewline(s: string, f: Fence, start: nat)
    requires OpenerAt(s, start, f).Some?
    ensures var q := start + OpenerAt(s, start, f).value;
            var pick := PickNewline(s, q, SpaceRunEnd(s, q));
            pick.Some? ==> PickAt(s, f, start) == Some(FenceMatch(start, pick.value.0, pick.value.1))
  {
  }

  /** A newline followed by a marker in the range means `PickNewline` picks it or a later one. */
  lemma PickNewlineCovers(s: string, q: nat, hi: nat, j: nat)
    requires q <= j < hi <= |s| && s[j] == '\n' && FirstClose(s, j + 2).Some?
    requires PicksLatest(s, q, hi)
    ensures PickNewline(s, q, hi).Some? && j <= PickNewline(s, q, hi).value.0
  {
  }

  /** `FindFence` reports exactly the preferred match, and nothing when no match exists. */
  lemma FindFenceCorrect(s: string, f: Fence)
    ensures FindFence(s, f).Some? ==> Preferred(s, f, FindFence(s, f).value)
    ensures FindFence(s, f).None? ==> forall m :: !MatchesAt(s, f, m)
  {
    var r := FindFence(s, f);
    if r.Some? {
      PickAtCorrect(s, f, r.value.start);
      forall m' | MatchesAt(s, f, m')
        ensures r.value.start <= m'.start
      {
        PickAtCorrect(s, f, m'.start);
        assert FindFenceFrom(s, f, 0) == r;
        FindFenceEarliest(s, f, 0, m'.start);
      }
    } else {
      forall m' | MatchesAt(s, f, m')
        ensures false
      {
        PickAtCorrect(s, f, m'.start);
      }
    }
  }

  /** The search from `p` stops no later than any start `k >= p` where a match begins. */
  lemma {:induction false} FindFenceEarliest(s: string, f: Fence, p: nat, k: nat)
    requires p <= k < |s| && PickAt(s, f, k).Some?
    ensures FindFenceFrom(s, f, p).Some? && FindFenceFrom(s, f, p).value.start <= k
    decreases k - p
  {
    if PickAt(s, f, p).None? {
      FindFenceEarliest(s, f, p + 1, k);
    }
  }

  /** The text between the fences. */
  function Content(s: string, m: FenceMatch): string
    requires m.newline < m.close <= |s|
  {
    s[m.newline + 1..m.close]
  }

  /** Method 3 of the extractors: a reply that both starts and ends with ``` loses the
      language-tagged opener `tag`, else a bare ```, and a trailing ```. */
  function StripFences(t: string, tag: string): string
  {
    TrimSuffix(TrimPrefix(TrimPrefix(t, tag), "```"), "```")
  }

  lemma StripFencesIsSubstring(t: string, tag: string)
    ensures IsSubstring(StripFences(t, tag), t)
  {
    var a := TrimPrefix(t, tag);
    var b := TrimPrefix(a, "```");
    TrimPrefixIsSubstring(t, tag);
    TrimPrefixIsSubstring(a, "```");
    TrimSuffixIsSubstring(b, "```");
    SubstringTransitive(b, a, t);
    SubstringTransitive(StripFences(t, tag), b, t);
  }

  // ---------------------------------------------------------------------------------
  // Brace matching

  function BraceDelta(c: char): int
  {
    if c == '{' then 1 else if c == '}' then -1 else 0
  }

  /** Opening minus closing braces; braces inside string literals count too. */
  function Balance(t: string): int
  {
    if t == [] then 0 else Balance(t[..|t| - 1]) + BraceDelta(t[|t| - 1])
  }

  /** The shortest non-empty prefix length from `k` on whose braces balance. */
  function FirstBalancedFrom(t: string, k: nat): (r: Option<nat>)
    requires 1 <= k
    ensures r.Some? ==> k <= r.value <= |t| && Balance(t[..r.value]) == 0 &&
                        forall j :: k <= j < r.value ==> Balance(t[..j]) != 0
    ensures r.None? ==> forall j :: k <= j <= |t| ==> Balance(t[..j]) != 0
    decreases |t| + 1 - k
  {
    if k > |t| then None
    else if Balance(t[..k]) == 0 then Some(k)
    else FirstBalancedFrom(t, k + 1)
  }

  function BalancedEnd(t: string): Option<nat>
  {
    FirstBalancedFrom(t, 1)
  }

  /** For a text that opens with a brace, every prefix before the balanced one has more
      opening than closing braces, and the balanced prefix ends with a closing brace. */
  lemma BalancedPrefixShape(t: string)
    requires |t| > 0 && t[0] == '{'
    ensures BalancedEnd(t).Some? ==>
              var k := BalancedEnd(t).value;
              Balance(t[..k]) == 0 && t[k - 1] == '}' && forall j :: 1 <= j < k ==> Balance(t[..j]) > 0
    ensures BalancedEnd(t).None? ==> forall j :: 1 <= j <= |t| ==> Balance(t[..j]) > 0
  {
    var end := if BalancedEnd(t).Some? then BalancedEnd(t).value else |t| + 1;
    PositiveBefore(t, end);
    if BalancedEnd(t).Some? {
      var k := end;
      assert t[..k][..k - 1] == t[..k - 1];
      if k > 1 {
        assert Balance(t[..k - 1]) > 0;
      }
    }
  }

  lemma {:induction false} PositiveBefore(t: string, end: nat)
    requires |t| > 0 && t[0] == '{' && 1 <= end <= |t| + 1
    requires forall j :: 1 <= j < end ==> Balance(t[..j]) != 0
    ensures forall j :: 1 <= j < end ==> Balance(t[..j]) > 0
    decreases end
  {
    if end > 1 {
      PositiveBefore(t, end - 1);
      var j := end - 1;
      if j == 1 {
        assert t[..1] == [t[0]];
        assert t[..1][..0] == [];
      } else {
        assert t[..j][..j - 1] == t[..j - 1];
        assert Balance(t[..j - 1]) > 0;
      }
    }
  }

  // ---------------------------------------------------------------------------------
  // extractJSON and extractYAML

  /** What an extractor's cascade settles on: a piece of the trimmed reply, returned
      trimmed, or nothing, in which case the trimmed reply itself is returned. */
  datatype Pick = Piece(text: string) | Unchanged

  /** Methods 1 to 4 of `extractJSON` on the trimmed reply `t`. */
  function JsonCascade(t: string): Pick
  {
    match FindFence(t, JsonFence)
    case Some(m) => Piece(Content(t, m))
    case None =>
      match FindFence(t, AnyFence)
      case Some(m) => Piece(Content(t, m))
      case None =>
        if HasPrefix(t, "```") && HasSuffix(t, "```") then Piece(StripFences(t, "```json"))
        else match IndexOfChar(t, '{')
          case None => Unchanged
          case Some(idx) =>
            match BalancedEnd(t[idx..])
            case Some(end) => Piece(t[idx..][..end])
            case None => Unchanged
  }

  /** The value `extractJSON` returns. */
  function JsonExtraction(response: string): string
  {
    var t := TrimSpace(response);
    match JsonCascade(t)
    case Piece(x) => TrimSpace(x)
    case Unchanged => t
  }

  /** `extractJSON`: the fence cascade, then the brace scan as the source's loop. */
  method ExtractJson(response: string) returns (r: string)
    ensures r == JsonExtraction(response)
  {
    var t := TrimSpace(response);
    var json := FindFence(t, JsonFence);
    if json.Some? {
      return TrimSpace(Content(t, json.value));
    }
    var generic := FindFence(t, AnyFence);
    if generic.Some? {
      return TrimSpace(Content(t, generic.value));
    }
    if HasPrefix(t, "```") && HasSuffix(t, "```") {
      var u := TrimPrefix(t, "```json");
      u := TrimPrefix(u, "```");
      u := TrimSuffix(u, "```");
      return TrimSpace(u);
    }
    var brace := IndexOfChar(t, '{');
    if brace.Some? {
      var end := ScanBraces(t[brace.value..]);
      if end.Some? {
        return TrimSpace(t[brace.value..][..end.value]);
      }
    }
    return t;
  }

  /** The brace-counting loop of `extractJSON`: the length of the shortest prefix of
      `jsonStr` whose braces balance, if there is one. The text starts at the first `{`. */
  method ScanBraces(jsonStr: string) returns (end: Option<nat>)
    requires |jsonStr| > 0 && jsonStr[0] == '{'
    ensures end == BalancedEnd(jsonStr)
  {
    var braceCount := 0;
    var endIdx := -1;
    var i := 0;
    while i < |jsonStr|
      invariant 0 <= i <= |jsonStr|
      invariant braceCount == Balance(jsonStr[..i])
      invariant endIdx == -1
      invariant forall j :: 1 <= j <= i ==> Balance(jsonStr[..j]) != 0
      invariant i >= 1 ==> braceCount > 0
    {
      assert jsonStr[..i + 1][..i] == jsonStr[..i];
      var ch := jsonStr[i];
      if ch == '{' {
        braceCount := braceCount + 1;
      } else if ch == '}' {
        braceCount := braceCount - 1;
        if braceCount == 0 {
          endIdx := i + 1;
          break;
        }
      }
      i := i + 1;
    }
    if endIdx > 0 {
      FirstBalancedUpTo(jsonStr, 1, endIdx);
      return Some(endIdx);
    }
    FirstBalancedUpTo(jsonStr, 1, |jsonStr| + 1);
    return None;
  }

  /** When no prefix length in `[k, end)` balances, the search from `k` goes on at `end`. */
  lemma {:induction false} FirstBalancedUpTo(t: string, k: nat, end: nat)
    requires 1 <= k <= end <= |t| + 1
    requires forall j :: k <= j < end ==> Balance(t[..j]) != 0
    ensures FirstBalancedFrom(t, k) == FirstBalancedFrom(t, end)
    decreases end - k
  {
    if k < end {
      FirstBalancedUpTo(t, k + 1, end);
    }
  }

  /** A line that starts `type:`, then white space, then a word character (the pattern
      `(?m)^type:\s+\w+`). */
  predicate TypeLineAt(s: string, p: nat)
  {
    (p == 0 || (p <= |s| && s[p - 1] == '\n')) && p + 5 <= |s| && s[p..p + 5] == "type:" &&
    var r := SpaceRunEnd(s, p + 5);
    p + 5 < r < |s| && IsWordChar(s[r])
  }

  /** The leftmost `type:` line at or after `p`. */
  function FindTypeLine(s: string, p: nat): (r: Option<nat>)
    ensures r.Some? ==> p <= r.value && TypeLineAt(s, r.value) &&
                        forall k :: p <= k < r.value ==> !TypeLineAt(s, k)
    ensures r.None? ==> forall k :: p <= k ==> !TypeLineAt(s, k)
    decreases |s| - p
  {
    if p + 5 > |s| then None
    else if TypeLineAt(s, p) then Some(p)
    else FindTypeLine(s, p + 1)
  }

  /** Methods 1 to 4 of `extractYAML` on the trimmed reply `t`. */
  function YamlCascade(t: string): Pick
  {
    match FindFence(t, YamlFence)
    case Some(m) => Piece(Content(t, m))
    case None =>
      match FindFence(t, AnyFence)
      case Some(m) => Piece(Content(t, m))
      case None =>
        if HasPrefix(t, "```") && HasSuffix(t, "```") then Piece(StripFences(t, "```yaml"))
        else match FindTypeLine(t, 0)
          case Some(p) => Piece(t[p..])
          case None => Unchanged
  }

  /** `extractYAML`. */
  function ExtractYaml(response: string): (r: string)
    ensures IsTrimmed(r)
  {
    var t := TrimSpace(response);
    TrimSpaceIsTrimmed(response);
    match YamlCascade(t)
    case Piece(x) => TrimSpaceIsTrimmed(x); TrimSpace(x)
    case Unchanged => t
  }

  /** Every piece the JSON cascade picks lies within the trimmed reply. */
  lemma JsonCascadeIsSubstring(t: string)
    ensures JsonCascade(t).Piece? ==> IsSubstring(JsonCascade(t).text, t)
  {
    if FindFence(t, JsonFence).Some? {
      FencedIsSubstring(t, JsonFence);
    } else if FindFence(t, AnyFence).Some? {
      FencedIsSubstring(t, AnyFence);
    } else {
      JsonUnfencedIsSubstring(t);
    }
  }

  /** The content of a found fence lies within the text. */
  lemma FencedIsSubstring(t: string, f: Fence)
    requires FindFence(t, f).Some?
    ensures var m := FindFence(t, f).value;
            m.newline < m.close <= |t| && IsSubstring(Content(t, m), t)
  {
    var m := FindFence(t, f).value;
    SliceIsSubstring(t, m.newline + 1, m.close);
  }

  lemma JsonUnfencedIsSubstring(t: string)
    requires FindFence(t, JsonFence).None? && FindFence(t, AnyFence).None?
    ensures JsonCascade(t).Piece? ==> IsSubstring(JsonCascade(t).text, t)
  {
    if HasPrefix(t, "```") && HasSuffix(t, "```") {
      StripFencesIsSubstring(t, "```json");
    } else if IndexOfChar(t, '{').Some? {
      var idx := IndexOfChar(t, '{').value;
      if BalancedEnd(t[idx..]).Some? {
        var end := BalancedEnd(t[idx..]).value;
        assert t[idx..][..end] == t[idx..idx + end];
        SliceIsSubstring(t, idx, idx + end);
      }
    }
  }

  /** Every piece the YAML cascade picks lies within the trimmed reply. */
  lemma YamlCascadeIsSubstring(t: string)
    ensures YamlCascade(t).Piece? ==> IsSubstring(YamlCascade(t).text, t)
  {
    if FindFence(t, YamlFence).Some? {
      FencedIsSubstring(t, YamlFence);
    } else if FindFence(t, AnyFence).Some? {
      FencedIsSubstring(t, AnyFence);
    } else {
      YamlUnfencedIsSubstring(t);
    }
  }

  lemma YamlUnfencedIsSubstring(t: string)
    requires FindFence(t, YamlFence).None? && FindFence(t, AnyFence).None?
    ensures YamlCascade(t).Piece? ==> IsSubstring(YamlCascade(t).text, t)
  {
    if HasPrefix(t, "```") && HasSuffix(t, "```") {
      StripFencesIsSubstring(t, "```yaml");
    } else if FindTypeLine(t, 0).Some? {
      var p := FindTypeLine(t, 0).value;
      assert YamlCascade(t).text == t[p..] == t[p..|t|];
      SliceIsSubstring(t, p, |t|);
    }
  }

  /** Trimming a piece of the trimmed reply gives a trimmed piece of the reply. */
  lemma TrimmedPiece(response: string, pick: Pick)
    requires pick.Piece? ==> IsSubstring(pick.text, TrimSpace(response))
    ensures var r := match pick case Piece(x) => TrimSpace(x) case Unchanged => TrimSpace(response);
            IsSubstring(r, response) && IsTrimmed(r)
  {
    var t := TrimSpace(response);
    TrimSpaceIsSubstring(response);
    TrimSpaceIsTrimmed(response);
    if pick.Piece? {
      TrimSpaceIsSubstring(pick.text);
      TrimSpaceIsTrimmed(pick.text);
      SubstringTransitive(TrimSpace(pick.text), pick.text, t);
      SubstringTransitive(TrimSpace(pick.text), t, response);
    }
  }

  /** Whatever method succeeds, `extractJSON` returns a contiguous piece of its input with
      no white space at either end. */
  lemma JsonExtractionIsTrimmedSubstring(response: string)
    ensures IsSubstring(JsonExtraction(response), response)
    ensures IsTrimmed(JsonExtraction(response))
  {
    JsonCascadeIsSubstring(TrimSpace(response));
    TrimmedPiece(response, JsonCascade(TrimSpace(response)));
  }

  /** The same for `extractYAML`. */
  lemma YamlExtractionIsTrimmedSubstring(response: string)
    ensures IsSubstring(ExtractYaml(response), response)
    ensures IsTrimmed(ExtractYaml(response))
  {
    YamlCascadeIsSubstring(TrimSpace(response));
    TrimmedPiece(response, YamlCascade(TrimSpace(response)));
  }

  /** When a ```json block is present it wins, and its content is the preferred match's;
      otherwise a bare ``` block wins the same way. */
  lemma JsonFencePrecedence(response: string)
    ensures var t := TrimSpace(response);
            (FindFence(t, JsonFence).Some? ==>
               Preferred(t, JsonFence, FindFence(t, JsonFence).value) &&
               JsonExtraction(response) == TrimSpace(Content(t, FindFence(t, JsonFence).value))) &&
            ((forall m :: !MatchesAt(t, JsonFence, m)) && FindFence(t, AnyFence).Some? ==>
               Preferred(t, AnyFence, FindFence(t, AnyFence).value) &&
               JsonExtraction(response) == TrimSpace(Content(t, FindFence(t, AnyFence).value)))
  {
    var t := TrimSpace(response);
    FindFenceCorrect(t, JsonFence);
    FindFenceCorrect(t, AnyFence);
  }

  /** The brace fallback returns the shortest balanced piece from the first `{`, which ends
      with `}`; when the braces never balance, the whole trimmed reply comes back. */
  lemma JsonBraceFallback(response: string)
    requires var t := TrimSpace(response);
             (forall m :: !MatchesAt(t, JsonFence, m)) && (forall m :: !MatchesAt(t, AnyFence, m)) &&
             !(HasPrefix(t, "```") && HasSuffix(t, "```")) && IndexOfChar(t, '{').Some?
    ensures var t := TrimSpace(response);
            var u := t[IndexOfChar(t, '{').value..];
            (BalancedEnd(u).Some? ==>
               var k := BalancedEnd(u).value;
               JsonExtraction(response) == TrimSpace(u[..k]) && Balance(u[..k]) == 0 && u[k - 1] == '}' &&
               forall j :: 1 <= j < k ==> Balance(u[..j]) > 0) &&
            (BalancedEnd(u).None? ==> JsonExtraction(response) == t)
  {
    var t := TrimSpace(response);
    FindFenceCorrect(t, JsonFence);
    FindFenceCorrect(t, AnyFence);
    var u := t[IndexOfChar(t, '{').value..];
    BalancedPrefixShape(u);
  }

  /** The `type:` fallback of `extractYAML` returns the text from the first `type:` line
      on, which therefore begins with `type:`; without such a line the whole trimmed reply
      comes back. */
  lemma YamlTypeFallback(response: string)
    requires var t := TrimSpace(response);
             (forall m :: !MatchesAt(t, YamlFence, m)) && (forall m :: !MatchesAt(t, AnyFence, m)) &&
             !(HasPrefix(t, "```") && HasSuffix(t, "```"))
    ensures var t := TrimSpace(response);
            (FindTypeLine(t, 0).Some? ==>
               var p := FindTypeLine(t, 0).value;
               ExtractYaml(response) == TrimSpace(t[p..]) && HasPrefix(ExtractYaml(response), "type:")) &&
            (FindTypeLine(t, 0).None? ==> ExtractYaml(response) == t)
  {
    var t := TrimSpace(response);
    NoMatchNoFence(t, YamlFence);
    NoMatchNoFence(t, AnyFence);
    YamlUnfenced(response, t);
  }

  /** Without fences or enclosing backticks, `extractYAML` returns the trimmed text from the
      first `type:` line on, or the whole trimmed reply when there is no such line. */
  lemma YamlUnfenced(response: string, t: string)
    requires t == TrimSpace(response)
    requires FindFence(t, YamlFence).None? && FindFence(t, AnyFence).None?
    requires !(HasPrefix(t, "```") && HasSuffix(t, "```"))
    ensures FindTypeLine(t, 0).Some? ==>
              ExtractYaml(response) == TrimSpace(t[FindTypeLine(t, 0).value..]) &&
              HasPrefix(ExtractYaml(response), "type:")
    ensures FindTypeLine(t, 0).None? ==> ExtractYaml(response) == t
  {
    YamlCascadeUnfenced(t);
    match FindTypeLine(t, 0)
    case Some(p) =>
      ExtractYamlOfPiece(response, t[p..]);
      TypeLineShift(t, p);
      TypeLineKeepsHead(t[p..]);
    case None =>
      ExtractYamlUnchanged(response);
  }

  /** A `type:` line at `p` is a `type:` line at the start of the text from `p` on. */
  lemma TypeLineShift(s: string, p: nat)
    requires TypeLineAt(s, p)
    ensures TypeLineAt(s[p..], 0)
  {
    var u := s[p..];
    var r := SpaceRunEnd(s, p + 5);
    var r' := SpaceRunEnd(u, 5);
    assert u[..5] == s[p..p + 5];
    assert r' == r - p;
  }

  /** The cascade on a text without fences or enclosing backticks. */
  lemma YamlCascadeUnfenced(t: string)
    requires FindFence(t, YamlFence).None? && FindFence(t, AnyFence).None?
    requires !(HasPrefix(t, "```") && HasSuffix(t, "```"))
    ensures FindTypeLine(t, 0).Some? ==> YamlCascade(t) == Piece(t[FindTypeLine(t, 0).value..])
    ensures FindTypeLine(t, 0).None? ==> YamlCascade(t) == Unchanged
  {
  }

  /** A piece picked by the cascade comes back trimmed. */
  lemma ExtractYamlOfPiece(response: string, x: string)
    requires YamlCascade(TrimSpace(response)) == Piece(x)
    ensures ExtractYaml(response) == TrimSpace(x)
  {
  }

  /** When the cascade picks nothing, the trimmed reply comes back. */
  lemma ExtractYamlUnchanged(response: string)
    requires YamlCascade(TrimSpace(response)) == Unchanged
    ensures ExtractYaml(response) == TrimSpace(response)
  {
  }

  lemma NoMatchNoFence(t: string, f: Fence)
    requires forall m :: !MatchesAt(t, f, m)
    ensures FindFence(t, f).None?
  {
    FindFenceCorrect(t, f);
  }

  /** Trimming a text that starts with a `type:` line keeps that head. */
  lemma TypeLineKeepsHead(rest: string)
    requires TypeLineAt(rest, 0)
    ensures HasPrefix(TrimSpace(rest), "type:")
  {
    var b := TrimBounds(rest, Go);
    assert !IsSpace(rest[0], Go);
    assert b.0 == 0;
    var r := SpaceRunEnd(rest, 5);
    assert !IsSpace(rest[r], Go);
    assert b.1 > r;
    assert TrimSpace(rest)[..5] == rest[..5];
  }
}
