/** The JavaScript string operations the system relies on, over `seq<char>`:
    `startsWith`, `endsWith`, `indexOf`/`includes`, `slice`, `replace` with a
    string pattern, `split`, `join` and `trim`. */
module Text {
  import opened Wrappers

  predicate StartsWith(s: string, prefix: string) {
    |prefix| <= |s| && s[..|prefix|] == prefix
  }

  predicate EndsWith(s: string, suffix: string) {
    |suffix| <= |s| && s[|s| - |suffix|..] == suffix
  }

  /** `t` occurs in `s` starting at index `i`. */
  predicate OccursAt(s: string, t: string, i: nat) {
    i + |t| <= |s| && s[i..i + |t|] == t
  }

  function IndexOfFrom(s: string, t: string, i: nat): (r: Option<nat>)
    requires i <= |s|
    ensures r.Some? ==> i <= r.value && OccursAt(s, t, r.value)
    ensures r.Some? ==> forall j :: i <= j < r.value ==> !OccursAt(s, t, j)
    ensures r.None? ==> forall j :: i <= j <= |s| ==> !OccursAt(s, t, j)
    decreases |s| - i
  {
    if OccursAt(s, t, i) then Some(i)
    else if i == |s| then None
    else IndexOfFrom(s, t, i + 1)
  }

  /** `s.indexOf(t)`: the first position where `t` occurs, if any. */
  function IndexOf(s: string, t: string): (r: Option<nat>)
    ensures r.Some? ==> OccursAt(s, t, r.value)
    ensures r.Some? ==> forall j :: 0 <= j < r.value ==> !OccursAt(s, t, j)
    ensures r.None? ==> forall j :: 0 <= j <= |s| ==> !OccursAt(s, t, j)
  {
    IndexOfFrom(s, t, 0)
  }

  /** `s.includes(t)`. */
  predicate Contains(s: string, t: string) {
    IndexOf(s, t).Some?
  }

  /** A fragment of `s` that ends before the first occurrence of `t` does not contain `t`. */
  lemma PrefixBeforeFirstOccurrence(s: string, t: string, i: nat)
    requires i <= |s|
    requires forall j :: 0 <= j < i ==> !OccursAt(s, t, j)
    requires |t| > 0
    ensures !Contains(s[..i], t)
  {
    var p := s[..i];
    forall j | 0 <= j <= |p|
      ensures !OccursAt(p, t, j)
    {
      if j + |t| <= |p| {
        assert !OccursAt(s, t, j);
        assert p[j..j + |t|] == s[j..j + |t|];
      }
    }
  }

  /** `s.slice(start, -1)`: from `start` up to, but excluding, the last character. */
  function SliceToLast(s: string, start: nat): (r: string)
    ensures start < |s| ==> r == s[start..|s| - 1]
    ensures start >= |s| - 1 ==> r == []
  {
    if start < |s| - 1 then s[start..|s| - 1] else []
  }

  /** The JavaScript `String.prototype.replace` with a string pattern: only the
      first occurrence of `pattern` is replaced. */
  function ReplaceFirst(s: string, pattern: string, replacement: string): string {
    match IndexOf(s, pattern)
    case None => s
    case Some(i) => s[..i] + replacement + s[i + |pattern|..]
  }

  /** `s.split(sep)` for a non-empty separator: the pieces between successive
      occurrences of `sep`, scanning left to right. */
  function Split(s: string, sep: string): (pieces: seq<string>)
    requires |sep| > 0
    ensures |pieces| >= 1
    decreases |s|
  {
    match IndexOf(s, sep)
    case None => [s]
    case Some(i) => [s[..i]] + Split(s[i + |sep|..], sep)
  }

  /** No piece of a split contains the separator. */
  lemma {:induction false} SplitPiecesAvoidSeparator(s: string, sep: string)
    requires |sep| > 0
    ensures forall k :: 0 <= k < |Split(s, sep)| ==> !Contains(Split(s, sep)[k], sep)
    decreases |s|
  {
    var r := IndexOf(s, sep);
    if r.Some? {
      var i := r.value;
      PrefixBeforeFirstOccurrence(s, sep, i);
      SplitPiecesAvoidSeparator(s[i + |sep|..], sep);
      assert Split(s, sep) == [s[..i]] + Split(s[i + |sep|..], sep);
    }
  }

  /** `xs.join(sep)`. */
  function Join(xs: seq<string>, sep: string): string {
    if |xs| == 0 then []
    else if |xs| == 1 then xs[0]
    else xs[0] + sep + Join(xs[1..], sep)
  }

  /** Joining the pieces of a split with the same separator gives the string back. */
  lemma {:induction false} JoinSplit(s: string, sep: string)
    requires |sep| > 0
    ensures Join(Split(s, sep), sep) == s
    decreases |s|
  {
    var r := IndexOf(s, sep);
    if r.Some? {
      var i := r.value;
      var rest := s[i + |sep|..];
      JoinSplit(rest, sep);
      SplitAtFirst(s, sep, i);
      JoinCons(s[..i], Split(rest, sep), sep);
    }
  }

  lemma SplitAtFirst(s: string, sep: string, i: nat)
    requires |sep| > 0
    requires IndexOf(s, sep) == Some(i)
    ensures Split(s, sep) == [s[..i]] + Split(s[i + |sep|..], sep)
    ensures s == s[..i] + sep + s[i + |sep|..]
  {
    assert s == s[..i] + s[i..i + |sep|] + s[i + |sep|..];
  }

  lemma JoinCons(x: string, tail: seq<string>, sep: string)
    requires |tail| > 0
    ensures Join([x] + tail, sep) == x + sep + Join(tail, sep)
  {
    assert ([x] + tail)[1..] == tail;
  }

  /** A single-character separator that occurs in no element splits a join back
      into the same elements. */
  lemma {:induction false} SplitJoin(xs: seq<string>, c: char)
    requires |xs| > 0
    requires forall k :: 0 <= k < |xs| ==> c !in xs[k]
    ensures Split(Join(xs, [c]), [c]) == xs
  {
    if |xs| == 1 {
      NoOccurrence(xs[0], c);
    } else {
      var rest := Join(xs[1..], [c]);
      var s := xs[0] + [c] + rest;
      assert OccursAt(s, [c], |xs[0]|);
      forall j | 0 <= j < |xs[0]|
        ensures !OccursAt(s, [c], j)
      {
        assert s[j] == xs[0][j];
      }
      assert IndexOf(s, [c]) == Some(|xs[0]|);
      assert s[..|xs[0]|] == xs[0];
      assert s[|xs[0]| + 1..] == rest;
      SplitJoin(xs[1..], c);
    }
  }

  lemma NoOccurrence(s: string, c: char)
    requires c !in s
    ensures IndexOf(s, [c]).None?
  {
    forall j | 0 <= j <= |s|
      ensures !OccursAt(s, [c], j)
    {
      if j + 1 <= |s| {
        assert s[j..j + 1] == [s[j]];
      }
    }
  }

  /** The characters JavaScript's `trim` removes: WhiteSpace and LineTerminator
      of the ECMAScript grammar. */
  predicate IsSpace(c: char) {
    c == ' ' || c == '\t' || c == '\n' || c == '\r' || c == '\U{0B}' || c == '\U{0C}'
    || c == '\U{A0}' || c == '\U{1680}' || ('\U{2000}' <= c <= '\U{200A}')
    || c == '\U{2028}' || c == '\U{2029}' || c == '\U{202F}' || c == '\U{205F}'
    || c == '\U{3000}' || c == '\U{FEFF}'
  }

  function TrimStart(s: string): (r: string)
    ensures |r| <= |s| && r == s[|s| - |r|..]
    ensures |r| > 0 ==> !IsSpace(r[0])
    ensures forall i :: 0 <= i < |s| - |r| ==> IsSpace(s[i])
  {
    if |s| > 0 && IsSpace(s[0]) then TrimStart(s[1..]) else s
  }

  function TrimEnd(s: string): (r: string)
    ensures |r| <= |s| && r == s[..|r|]
    ensures |r| > 0 ==> !IsSpace(r[|r| - 1])
    ensures forall i :: |r| <= i < |s| ==> IsSpace(s[i])
  {
    if |s| > 0 && IsSpace(s[|s| - 1]) then TrimEnd(s[..|s| - 1]) else s
  }

  /** `s.trim()`. */
  function Trim(s: string): string {
    TrimEnd(TrimStart(s))
  }

  /** `s.trim() !== ''` exactly when `s` has a character that is not white space. */
  lemma TrimEmptyIffBlank(s: string)
    ensures Trim(s) == [] <==> forall i :: 0 <= i < |s| ==> IsSpace(s[i])
  {
  }

  /** Decimal rendering of a natural number, as JavaScript's `String(n)`. */
  function NatToString(n: nat): (r: string)
    ensures |r| >= 1
    ensures forall i :: 0 <= i < |r| ==> '0' <= r[i] <= '9'
  {
    var d := ['0' + (n % 10) as char];
    if n < 10 then d else NatToString(n / 10) + d
  }

  /** Every occurrence of `from` replaced by `to`, character by character. */
  function ReplaceChar(s: string, from: char, to: char): (r: string)
    ensures |r| == |s|
    ensures forall i :: 0 <= i < |s| ==> r[i] == if s[i] == from then to else s[i]
  {
    if |s| == 0 then [] else [if s[0] == from then to else s[0]] + ReplaceChar(s[1..], from, to)
  }
}
