/** The few `java.lang.String` operations the pipeline relies on, with their
    Java semantics written out: `trim`, `isBlank`, `startsWith`, `endsWith`,
    `contains`, `lastIndexOf`, joining, integer printing and the
    `split(regex)` / `Scanner` tokenisation rules (trailing empty pieces
    dropped, leftmost longest delimiter match). */
module JavaText {

  /** `String.trim()` strips every leading and trailing char at or below U+0020. */
  predicate IsTrimmable(c: char) {
    c <= ' '
  }

  /** `Character.isWhitespace`, the test behind `String.isBlank()`. The
      non-breaking spaces U+00A0, U+2007 and U+202F are not whitespace. */
  predicate IsJavaWhitespace(c: char) {
    || ('\t' <= c <= '\r')
    || ('\U{1C}' <= c <= ' ')
    || c == '\U{1680}'
    || ('\U{2000}' <= c <= '\U{2006}')
    || ('\U{2008}' <= c <= '\U{200A}')
    || c == '\U{2028}' || c == '\U{2029}' || c == '\U{205F}' || c == '\U{3000}'
  }

  /** `String.isBlank()`: empty, or whitespace only. */
  predicate IsBlank(s: string) {
    forall i :: 0 <= i < |s| ==> IsJavaWhitespace(s[i])
  }

  /** The line terminators that the regex `.` does not match. */
  predicate IsLineTerminator(c: char) {
    c == '\n' || c == '\r' || c == '\U{85}' || c == '\U{2028}' || c == '\U{2029}'
  }

  function LeadingTrimCount(s: string): (n: nat)
    ensures n <= |s|
    ensures forall i :: 0 <= i < n ==> IsTrimmable(s[i])
    ensures n < |s| ==> !IsTrimmable(s[n])
  {
    if |s| == 0 || !IsTrimmable(s[0]) then 0 else 1 + LeadingTrimCount(s[1..])
  }

  function TrailingTrimCount(s: string): (n: nat)
    ensures n <= |s|
    ensures forall i :: |s| - n <= i < |s| ==> IsTrimmable(s[i])
    ensures n < |s| ==> !IsTrimmable(s[|s| - 1 - n])
  {
    if |s| == 0 || !IsTrimmable(s[|s| - 1]) then 0 else 1 + TrailingTrimCount(s[..|s| - 1])
  }

  /** `String.trim()`. */
  function Trim(s: string): (r: string)
    ensures |r| <= |s|
    ensures |r| > 0 ==> !IsTrimmable(r[0]) && !IsTrimmable(r[|r| - 1])
    ensures (|s| == 0 || (!IsTrimmable(s[0]) && !IsTrimmable(s[|s| - 1]))) ==> r == s
    ensures (forall i :: 0 <= i < |s| ==> IsTrimmable(s[i])) ==> r == []
  {
    var t := s[LeadingTrimCount(s)..];
    t[..|t| - TrailingTrimCount(t)]
  }

  /** Where the trimmed text sits: everything before `a` and from `b` on is
      trimmable. */
  lemma TrimBounds(s: string) returns (a: nat, b: nat)
    ensures a <= b <= |s| && Trim(s) == s[a..b]
    ensures forall i :: 0 <= i < a ==> IsTrimmable(s[i])
    ensures forall i :: b <= i < |s| ==> IsTrimmable(s[i])
  {
    a := LeadingTrimCount(s);
    var t := s[a..];
    b := a + |t| - TrailingTrimCount(t);
    assert t[..|t| - TrailingTrimCount(t)] == s[a..b];
    forall i | b <= i < |s|
      ensures IsTrimmable(s[i])
    {
      assert s[i] == t[i - a];
    }
  }

  /** `trim()` keeps exactly the span from the first to the last char above
      a space. */
  lemma TrimUnique(s: string, a: nat, b: nat)
    requires a < b <= |s|
    requires !IsTrimmable(s[a]) && !IsTrimmable(s[b - 1])
    requires forall i :: 0 <= i < a ==> IsTrimmable(s[i])
    requires forall i :: b <= i < |s| ==> IsTrimmable(s[i])
    ensures Trim(s) == s[a..b]
  {
    var a', b' := TrimBounds(s);
    assert a' < b';
    assert !IsTrimmable(s[a']) && !IsTrimmable(s[b' - 1]) by {
      assert Trim(s)[0] == s[a'] && Trim(s)[|Trim(s)| - 1] == s[b' - 1];
    }
  }

  /** Trimmable chars added at the end do not change the trimmed text. */
  lemma TrimAppendTrimmable(s: string, pad: string)
    requires forall i :: 0 <= i < |pad| ==> IsTrimmable(pad[i])
    ensures Trim(s + pad) == Trim(s)
  {
    var a, b := TrimBounds(s);
    var u := s + pad;
    if a == b {
      assert forall i :: 0 <= i < |u| ==> IsTrimmable(u[i]) by {
        forall i | 0 <= i < |u|
          ensures IsTrimmable(u[i])
        {
          if i < |s| {
            assert u[i] == s[i];
          } else {
            assert u[i] == pad[i - |s|];
          }
        }
      }
    } else {
      assert Trim(s)[0] == s[a] && Trim(s)[b - a - 1] == s[b - 1];
      forall i | b <= i < |u|
        ensures IsTrimmable(u[i])
      {
        if i < |s| {
          assert u[i] == s[i];
        } else {
          assert u[i] == pad[i - |s|];
        }
      }
      TrimUnique(u, a, b);
      assert u[a..b] == s[a..b];
    }
  }

  predicate StartsWith(s: string, prefix: string) {
    |prefix| <= |s| && s[..|prefix|] == prefix
  }

  predicate EndsWith(s: string, suffix: string) {
    |suffix| <= |s| && s[|s| - |suffix|..] == suffix
  }

  /** `s` holds `part` at offset `i`. */
  predicate OccursAt(s: string, part: string, i: nat) {
    i + |part| <= |s| && s[i..i + |part|] == part
  }

  /** `String.contains`. */
  predicate Contains(s: string, part: string) {
    exists i: nat :: i <= |s| && OccursAt(s, part, i)
  }

  /** `String.lastIndexOf(char)`: the last position holding `c`, or -1. */
  function LastIndexOf(s: string, c: char): (r: int)
    ensures -1 <= r < |s|
    ensures r >= 0 ==> s[r] == c
    ensures forall k :: r < k < |s| ==> s[k] != c
  {
    if |s| == 0 then -1
    else if s[|s| - 1] == c then |s| - 1
    else LastIndexOf(s[..|s| - 1], c)
  }

  /** `String.indexOf(char)`: the first position holding `c`, or -1. */
  function IndexOf(s: string, c: char): (r: int)
    ensures -1 <= r < |s|
    ensures r >= 0 ==> s[r] == c
    ensures forall k :: 0 <= k < |s| && (r < 0 || k < r) ==> s[k] != c
  {
    if |s| == 0 then -1
    else if s[0] == c then 0
    else var rest := IndexOf(s[1..], c); if rest < 0 then -1 else rest + 1
  }

  /** `Math.min`. */
  function Min(a: int, b: int): int {
    if a <= b then a else b
  }

  /** `String.join(sep, parts)` / `Collectors.joining(sep)`. */
  function Join(parts: seq<string>, sep: string): string {
    if |parts| == 0 then ""
    else if |parts| == 1 then parts[0]
    else parts[0] + sep + Join(parts[1..], sep)
  }

  /** Concatenation of all parts, with nothing in between. */
  function Concat(parts: seq<string>): string {
    if |parts| == 0 then "" else parts[0] + Concat(parts[1..])
  }

  /** Each part followed by `suffix`. */
  function WithSuffix(parts: seq<string>, suffix: string): (r: seq<string>)
    ensures |r| == |parts|
    ensures forall k :: 0 <= k < |parts| ==> r[k] == parts[k] + suffix
  {
    if |parts| == 0 then [] else [parts[0] + suffix] + WithSuffix(parts[1..], suffix)
  }

  /** Writing each part followed by the separator is joining the parts with
      it and writing one separator more. */
  lemma {:induction false} ConcatWithSuffix(parts: seq<string>, sep: string)
    requires |parts| > 0
    ensures Concat(WithSuffix(parts, sep)) == Join(parts, sep) + sep
    decreases |parts|
  {
    var w := WithSuffix(parts, sep);
    assert w[1..] == WithSuffix(parts[1..], sep);
    if |parts| == 1 {
      assert Concat(w[1..]) == "";
    } else {
      ConcatWithSuffix(parts[1..], sep);
    }
  }

  /** A char that is in neither the parts nor the separator is not in the
      joined text. */
  lemma {:induction false} JoinAvoids(parts: seq<string>, sep: string, c: char)
    requires c !in sep
    requires forall k :: 0 <= k < |parts| ==> c !in parts[k]
    ensures c !in Join(parts, sep)
    decreases |parts|
  {
    if |parts| > 1 {
      JoinAvoids(parts[1..], sep, c);
    }
  }

  function DigitChar(d: nat): char
    requires d < 10
  {
    "0123456789"[d]
  }

  function NatToString(n: nat): (r: string)
    ensures |r| >= 1
  {
    if n < 10 then [DigitChar(n)] else NatToString(n / 10) + [DigitChar(n % 10)]
  }

  /** Java's decimal rendering of an `int` in string concatenation. */
  function IntToString(n: int): string {
    if n < 0 then "-" + NatToString(-n) else NatToString(n)
  }

  /** The regular expressions this code base splits on. */
  datatype Delimiter =
    | LineBreak           // \r?\n
    | BlankLines          // (\r?\n){2,}
    | Literal(text: string)

  /** Length of the newline units `\r?\n` starting at `i`, taken greedily, and
      how many units there are. */
  function NewlineRun(s: string, i: nat): (r: (nat, nat))
    requires i <= |s|
    ensures i + r.1 <= |s|
    ensures r.0 == 0 <==> r.1 == 0
    decreases |s| - i
  {
    if i < |s| && s[i] == '\n' then
      var rest := NewlineRun(s, i + 1); (rest.0 + 1, rest.1 + 1)
    else if i + 1 < |s| && s[i] == '\r' && s[i + 1] == '\n' then
      var rest := NewlineRun(s, i + 2); (rest.0 + 1, rest.1 + 2)
    else (0, 0)
  }

  /** Length of the delimiter match that starts at `i`, or 0 when none does.
      Each of these patterns has at most one match at a given position, the
      greedy one. */
  function MatchLength(d: Delimiter, s: string, i: nat): (n: nat)
    requires i <= |s|
    ensures i + n <= |s|
  {
    match d
    case LineBreak =>
      if i < |s| && s[i] == '\n' then 1
      else if i + 1 < |s| && s[i] == '\r' && s[i + 1] == '\n' then 2
      else 0
    case BlankLines =>
      var run := NewlineRun(s, i);
      if run.0 >= 2 then run.1 else 0
    case Literal(t) =>
      if |t| > 0 && OccursAt(s, t, i) then |t| else 0
  }

  /** The pieces between successive leftmost delimiter matches, scanning from
      `i` with the current piece starting at `start`. */
  function PiecesFrom(d: Delimiter, s: string, start: nat, i: nat): (r: seq<string>)
    requires start <= i <= |s|
    ensures |r| >= 1
    decreases |s| - i, 1
  {
    if i == |s| then [s[start..]]
    else
      var n := MatchLength(d, s, i);
      if n > 0 then [s[start..i]] + PiecesFrom(d, s, i + n, i + n)
      else PiecesFrom(d, s, start, i + 1)
  }

  /** Whether the delimiter matches anywhere at or after `i`. */
  predicate MatchesFrom(d: Delimiter, s: string, i: nat)
    requires i <= |s|
    decreases |s| - i
  {
    i < |s| && (MatchLength(d, s, i) > 0 || MatchesFrom(d, s, i + 1))
  }

  function DropTrailingEmpty(parts: seq<string>): (r: seq<string>)
    ensures |r| <= |parts|
    ensures r == parts[..|r|]
    ensures |r| > 0 ==> r[|r| - 1] != ""
    ensures forall k :: |r| <= k < |parts| ==> parts[k] == ""
  {
    if |parts| == 0 || parts[|parts| - 1] != "" then parts
    else DropTrailingEmpty(parts[..|parts| - 1])
  }

  /** `String.split(regex)`: when nothing matches the result is the whole
      string (even an empty one); otherwise trailing empty pieces are removed. */
  function Split(d: Delimiter, s: string): (r: seq<string>)
    ensures !MatchesFrom(d, s, 0) ==> r == [s]
  {
    if !MatchesFrom(d, s, 0) then [s] else DropTrailingEmpty(PiecesFrom(d, s, 0, 0))
  }

  /** No match between `i` and `j`: the scan reaches `j` with the same
      piece open. */
  lemma {:induction false} PiecesFromSkip(d: Delimiter, s: string, start: nat, i: nat, j: nat)
    requires start <= i <= j <= |s|
    requires forall k :: i <= k < j ==> MatchLength(d, s, k) == 0
    ensures PiecesFrom(d, s, start, i) == PiecesFrom(d, s, start, j)
    decreases j - i
  {
    if i < j {
      PiecesFromSkip(d, s, start, i + 1, j);
    }
  }

  lemma {:induction false} MatchesFromReach(d: Delimiter, s: string, i: nat, j: nat)
    requires i <= j < |s| && MatchLength(d, s, j) > 0
    ensures MatchesFrom(d, s, i)
    decreases j - i
  {
    if i < j {
      MatchesFromReach(d, s, i + 1, j);
    }
  }

  /** When the first match starts at `n > 0`, the first piece of the split
      is everything before it. */
  lemma SplitFirstPiece(d: Delimiter, s: string, n: nat)
    requires 0 < n < |s| && MatchLength(d, s, n) > 0
    requires forall k :: 0 <= k < n ==> MatchLength(d, s, k) == 0
    ensures |Split(d, s)| > 0 && Split(d, s)[0] == s[..n]
  {
    MatchesFromReach(d, s, 0, n);
    PiecesFromSkip(d, s, 0, 0, n);
    var pieces := PiecesFrom(d, s, 0, 0);
    assert pieces[0] == s[..n];
    assert pieces[0] != "";
  }

  function NonEmpty(parts: seq<string>): (r: seq<string>)
    ensures forall k :: 0 <= k < |r| ==> r[k] != ""
    ensures |r| <= |parts|
  {
    if |parts| == 0 then []
    else (if parts[0] == "" then [] else [parts[0]]) + NonEmpty(parts[1..])
  }

  /** The tokens a `java.util.Scanner` yields over a string with the given
      delimiter: the non-empty pieces between delimiter matches. */
  function ScannerTokens(d: Delimiter, s: string): (r: seq<string>)
    ensures forall k :: 0 <= k < |r| ==> r[k] != ""
  {
    NonEmpty(PiecesFrom(d, s, 0, 0))
  }
}
