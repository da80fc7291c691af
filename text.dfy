/** String and error helpers shared by every module of the model: the small part of the
    Go `strings`/`fmt` packages and of JavaScript string handling that the core relies on.
    Strings are sequences of characters; where the Go code measures byte lengths, one
    character stands for one byte. */
module Text {

  datatype Option<+T> = None | Some(value: T)

  datatype Result<+T, +E> = Ok(value: T) | Err(error: E)

  /** Which notion of white space a trim uses: Go's `unicode.IsSpace` (`strings.TrimSpace`)
      or JavaScript's `String.prototype.trim`. */
  datatype Dialect = Go | JavaScript

  predicate IsSpace(c: char, d: Dialect)
  {
    c == ' ' || c == '\t' || c == '\n' || c == '\r' || c == '\U{000B}' || c == '\U{000C}' ||
    c == '\U{00A0}' || c == '\U{1680}' || ('\U{2000}' <= c <= '\U{200A}') ||
    c == '\U{2028}' || c == '\U{2029}' || c == '\U{202F}' || c == '\U{205F}' || c == '\U{3000}' ||
    (d == Go && c == '\U{0085}') || (d == JavaScript && c == '\U{FEFF}')
  }

  /** `\s` of Go's regular expressions (RE2): ASCII white space without the vertical tab. */
  predicate IsRegexSpace(c: char)
  {
    c == ' ' || c == '\t' || c == '\n' || c == '\r' || c == '\U{000C}'
  }

  /** `\w` of Go's regular expressions: ASCII letters, digits and underscore. */
  predicate IsWordChar(c: char)
  {
    ('a' <= c <= 'z') || ('A' <= c <= 'Z') || ('0' <= c <= '9') || c == '_'
  }

  /** Index of the first character that is not white space (|s| when there is none). */
  function TrimStart(s: string, d: Dialect): (k: nat)
    ensures k <= |s|
    ensures forall i :: 0 <= i < k ==> IsSpace(s[i], d)
    ensures k < |s| ==> !IsSpace(s[k], d)
  {
    if s == [] || !IsSpace(s[0], d) then 0 else 1 + TrimStart(s[1..], d)
  }

  /** One past the last character that is not white space (0 when there is none). */
  function TrimEnd(s: string, d: Dialect): (k: nat)
    ensures k <= |s|
    ensures forall i :: k <= i < |s| ==> IsSpace(s[i], d)
    ensures 0 < k ==> !IsSpace(s[k - 1], d)
  {
    if s == [] || !IsSpace(s[|s| - 1], d) then |s| else TrimEnd(s[..|s| - 1], d)
  }

  /** The bounds of the trimmed part of `s`: white space is removed at both ends and
      nowhere else. */
  function TrimBounds(s: string, d: Dialect): (b: (nat, nat))
    ensures b.0 <= b.1 <= |s|
    ensures forall i :: 0 <= i < b.0 ==> IsSpace(s[i], d)
    ensures forall i :: b.1 <= i < |s| ==> IsSpace(s[i], d)
    ensures b.0 < b.1 ==> !IsSpace(s[b.0], d) && !IsSpace(s[b.1 - 1], d)
  {
    var lo := TrimStart(s, d);
    if lo == |s| then (lo, lo) else
      var hi := TrimEnd(s, d);
      assert lo < hi;
      (lo, hi)
  }

  /** Go's `strings.TrimSpace`. */
  function TrimSpace(s: string): string
  {
    var b := TrimBounds(s, Go);
    s[b.0..b.1]
  }

  /** JavaScript's `String.prototype.trim`. */
  function JsTrim(s: string): string
  {
    var b := TrimBounds(s, JavaScript);
    s[b.0..b.1]
  }

  /** `x` occurs in `s` at position `i`. */
  predicate OccursAt(x: string, s: string, i: nat)
  {
    i + |x| <= |s| && s[i..i + |x|] == x
  }

  /** `x` occurs in `s` at some position. */
  ghost predicate IsSubstring(x: string, s: string)
  {
    exists i: nat :: OccursAt(x, s, i)
  }

  predicate HasPrefix(s: string, p: string)
  {
    |p| <= |s| && s[..|p|] == p
  }

  predicate HasSuffix(s: string, p: string)
  {
    |p| <= |s| && s[|s| - |p|..] == p
  }

  lemma AppendKeepsPrefix(s: string, p: string, t: string)
    requires HasPrefix(s, p)
    ensures HasPrefix(s + t, p)
  {
    assert (s + t)[..|p|] == s[..|p|];
  }

  lemma OccursAtEnd(a: string, x: string)
    ensures OccursAt(x, a + x, |a|) && HasSuffix(a + x, x)
  {
    assert (a + x)[|a|..|a| + |x|] == x;
  }

  lemma OccursExtend(x: string, s: string, i: nat, t: string)
    requires OccursAt(x, s, i)
    ensures OccursAt(x, s + t, i)
  {
    assert (s + t)[i..i + |x|] == s[i..i + |x|];
  }

  lemma TailIsSuffix(w: string, s: string, m: string)
    ensures HasSuffix(w + s + m, s + m)
  {
    assert w + s + m == w + (s + m);
  }

  /** Decimal digits of a natural number, as `fmt`'s `%d` and JavaScript's template
      literals print it. */
  function NatToString(n: nat): (r: string)
    ensures |r| >= 1
    ensures forall i :: 0 <= i < |r| ==> '0' <= r[i] <= '9'
    decreases n
  {
    var d := [(('0' as int) + n % 10) as char];
    if n < 10 then d else NatToString(n / 10) + d
  }

  /** Different numbers print differently. */
  lemma {:induction false} NatToStringInjective(a: nat, b: nat)
    requires NatToString(a) == NatToString(b)
    ensures a == b
    decreases a
  {
    var sa, sb := NatToString(a), NatToString(b);
    assert sa[|sa| - 1] == sb[|sb| - 1];
    assert a % 10 == b % 10;
    if a >= 10 && b >= 10 {
      assert NatToString(a / 10) == sa[..|sa| - 1] == sb[..|sb| - 1] == NatToString(b / 10);
      NatToStringInjective(a / 10, b / 10);
    }
  }

  function IntToString(i: int): (r: string)
    ensures |r| >= 1
  {
    if i < 0 then "-" + NatToString(-i) else NatToString(i)
  }

  /** Go's `strings.Join`. */
  function Join(parts: seq<string>, sep: string): (r: string)
    ensures parts == [] ==> r == ""
  {
    if parts == [] then ""
    else if |parts| == 1 then parts[0]
    else parts[0] + sep + Join(parts[1..], sep)
  }

  /** Concatenation of a sequence of strings. */
  function Concat(parts: seq<string>): (r: string)
    ensures parts == [] ==> r == ""
  {
    if parts == [] then "" else Concat(parts[..|parts| - 1]) + parts[|parts| - 1]
  }

  lemma ConcatAppend(parts: seq<string>, last: string)
    ensures Concat(parts + [last]) == Concat(parts) + last
  {
    assert (parts + [last])[..|parts|] == parts;
  }

  /** Index of the first occurrence of `c` in `s`, if any. */
  function IndexOfChar(s: string, c: char): (r: Option<nat>)
    ensures r.Some? ==> r.value < |s| && s[r.value] == c &&
                        forall i :: 0 <= i < r.value ==> s[i] != c
    ensures r.None? ==> forall i :: 0 <= i < |s| ==> s[i] != c
  {
    if s == [] then None
    else if s[0] == c then Some(0)
    else match IndexOfChar(s[1..], c)
      case None => None
      case Some(k) => Some(k + 1)
  }

  /** `s` has no `c` in it. */
  predicate Lacks(s: string, c: char) {
    forall j :: 0 <= j < |s| ==> s[j] != c
  }

  lemma LacksConcat(a: string, b: string, c: char)
    requires Lacks(a, c) && Lacks(b, c)
    ensures Lacks(a + b, c)
  {
    forall j | 0 <= j < |a + b| ensures (a + b)[j] != c {
      if j >= |a| {
        assert (a + b)[j] == b[j - |a|];
      }
    }
  }

  /** Go's `strings.Split(s, string(sep))` for a one-character separator: the pieces
      between separators, so a string with n separators has n + 1 pieces. */
  function Split(s: string, sep: char): (pieces: seq<string>)
    ensures |pieces| >= 1
    ensures forall i :: 0 <= i < |pieces| ==> Lacks(pieces[i], sep)
    decreases |s|
  {
    match IndexOfChar(s, sep)
    case None => [s]
    case Some(k) => [s[..k]] + Split(s[k + 1..], sep)
  }

  /** Joining the pieces of a split with the separator gives back the original text. */
  lemma {:induction false} JoinSplit(s: string, sep: char)
    ensures Join(Split(s, sep), [sep]) == s
    decreases |s|
  {
    match IndexOfChar(s, sep)
    case None =>
    case Some(k) =>
      var rest := Split(s[k + 1..], sep);
      JoinSplit(s[k + 1..], sep);
      assert Split(s, sep) == [s[..k]] + rest;
      assert Join(Split(s, sep), [sep]) == s[..k] + [sep] + Join(rest, [sep]);
      assert s == s[..k] + [sep] + s[k + 1..];
  }

  /** The separator found in `a + [sep] + b` first is the one after `a`, when `a` has none. */
  lemma FirstSeparator(a: string, sep: char, b: string)
    requires forall j :: 0 <= j < |a| ==> a[j] != sep
    ensures IndexOfChar(a + [sep] + b, sep) == Some(|a|)
  {
    var s := a + [sep] + b;
    assert s[|a|] == sep;
    match IndexOfChar(s, sep)
    case None => assert false;
    case Some(k) =>
      if k < |a| {
        assert s[k] == a[k];
      }
  }

  /** Splitting a join gives back the parts, when no part contains the separator. */
  lemma {:induction false} SplitJoin(parts: seq<string>, sep: char)
    requires |parts| >= 1
    requires forall i :: 0 <= i < |parts| ==> Lacks(parts[i], sep)
    ensures Split(Join(parts, [sep]), sep) == parts
    decreases |parts|
  {
    if |parts| == 1 {
      assert Join(parts, [sep]) == parts[0];
      assert IndexOfChar(parts[0], sep) == None;
    } else {
      var tail := parts[1..];
      assert forall i :: 0 <= i < |tail| ==> tail[i] == parts[i + 1];
      SplitJoin(tail, sep);
      SplitStep(parts[0], sep, Join(tail, [sep]));
      assert Join(parts, [sep]) == parts[0] + [sep] + Join(tail, [sep]);
      assert parts == [parts[0]] + tail;
    }
  }

  /** Splitting `a + [sep] + b` when `a` has no separator: `a`, then the pieces of `b`. */
  lemma SplitStep(a: string, sep: char, b: string)
    requires Lacks(a, sep)
    ensures Split(a + [sep] + b, sep) == [a] + Split(b, sep)
  {
    var s := a + [sep] + b;
    FirstSeparator(a, sep, b);
    assert s[..|a|] == a;
    assert s[|a| + 1..] == b;
  }
}
