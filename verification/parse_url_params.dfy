/** `parseUrlParams`: a query string, or an already parsed query object, as
    a record of strings and string lists.

    A query string goes through `URLSearchParams` and `Object.fromEntries`:
    the pairs are read as the `application/x-www-form-urlencoded` parser of
    the WHATWG URL Standard reads them, and a repeated name keeps the value
    of its last pair at the place of its first. Percent-decoding is a
    parameter. */
module ParseUrlParams {
  import opened Wrappers
  import opened Text
  import opened Records

  /** A value of a parsed query object: a string, a list of strings, or
      `undefined`. */
  datatype QueryValue = Str(s: string) | Arr(items: seq<string>) | Undefined

  /** The argument: a query string or a parsed query object. */
  datatype Input = FromString(query: string) | FromObject(entries: Rec<QueryValue>)

  /** Percent-decoding of a name or value, and the UTF-8 decoding after it. */
  type Decode = string -> string

  type Pair = (string, string)

  /** `query.startsWith('?') ? query.slice(1) : query`; `URLSearchParams`
      removes a leading `?` from its argument in the same way. */
  function DropQuestionMark(s: string): (r: string)
    ensures StartsWith(s, "?") ==> s == "?" + r
    ensures !StartsWith(s, "?") ==> r == s
  {
    if StartsWith(s, "?") then s[1..] else s
  }

  /** One `&`-separated piece as a name and a value: split at the first `=`
      (no `=` gives an empty value), `+` read as a space, then decoded. */
  function PairOf(piece: string, decode: Decode): Pair {
    match IndexOf(piece, "=")
    case None => (decode(ReplaceChar(piece, '+', ' ')), "")
    case Some(i) => (decode(ReplaceChar(piece[..i], '+', ' ')), decode(ReplaceChar(piece[i + 1..], '+', ' ')))
  }

  /** The pairs of the pieces, skipping the empty ones. */
  function PairsOf(pieces: seq<string>, decode: Decode): (r: seq<Pair>)
    ensures |r| <= |pieces|
  {
    if |pieces| == 0 then []
    else (if pieces[0] == "" then [] else [PairOf(pieces[0], decode)]) + PairsOf(pieces[1..], decode)
  }

  /** The pairs `new URLSearchParams(s)` holds, for `s` without its `?`. */
  function FormPairs(s: string, decode: Decode): seq<Pair> {
    PairsOf(Split(s, "&"), decode)
  }

  /** `Object.fromEntries(pairs)`: each pair assigned in turn. */
  function FromEntries(pairs: seq<Pair>): (r: Rec<QueryValue>)
    ensures DistinctKeys(r)
    ensures forall i :: 0 <= i < |r| ==> r[i].1.Str?
    decreases |pairs|
  {
    if |pairs| == 0 then []
    else
      var before := FromEntries(pairs[..|pairs| - 1]);
      var (k, v) := pairs[|pairs| - 1];
      SetKeeps(before, k, Str(v), (e: (string, QueryValue)) => e.1.Str?);
      Set(before, k, Str(v))
  }

  /** The pairs as a record, every pair kept. */
  function AsRecord(pairs: seq<Pair>): (r: Rec<QueryValue>)
    ensures |r| == |pairs|
    ensures forall i :: 0 <= i < |pairs| ==> r[i] == (pairs[i].0, Str(pairs[i].1))
  {
    seq(|pairs|, i requires 0 <= i < |pairs| => (pairs[i].0, Str(pairs[i].1)))
  }

  /** The loop over `Object.entries(parsedQuery)`: a list or any defined value
      is copied under its key; `undefined` is dropped. */
  function CopyDefined(entries: Rec<QueryValue>): (r: Rec<QueryValue>)
    ensures DistinctKeys(r)
    ensures forall i :: 0 <= i < |r| ==> !r[i].1.Undefined? && r[i].0 in Keys(entries)
    decreases |entries|
  {
    if |entries| == 0 then []
    else
      var n := |entries| - 1;
      var before := CopyDefined(entries[..n]);
      KeysSnoc(entries);
      var (k, v) := entries[n];
      var keep := (e: (string, QueryValue)) => !e.1.Undefined? && e.0 in Keys(entries);
      assert forall i :: 0 <= i < |before| ==> keep(before[i]);
      if v.Arr? then SetKeeps(before, k, v, keep); Set(before, k, v)
      else if !v.Undefined? then SetKeeps(before, k, v, keep); Set(before, k, v)
      else before
  }

  /** `parseUrlParams(query)`. */
  function Parse(input: Input, decode: Decode): (r: Rec<QueryValue>)
    ensures DistinctKeys(r)
    ensures forall i :: 0 <= i < |r| ==> !r[i].1.Undefined?
    ensures input.FromObject? ==> forall i :: 0 <= i < |r| ==> r[i].0 in Keys(input.entries)
  {
    match input
    case FromString(query) => CopyDefined(FromEntries(FormPairs(DropQuestionMark(DropQuestionMark(query)), decode)))
    case FromObject(entries) => CopyDefined(entries)
  }

  // ---------------------------------------------------------------------
  // Properties

  /** A name reads the value of its last pair. */
  lemma {:induction false} FromEntriesGet(pairs: seq<Pair>, k: string)
    ensures Get(FromEntries(pairs), k) == Get(AsRecord(pairs), k)
    decreases |pairs|
  {
    if |pairs| > 0 {
      var n := |pairs| - 1;
      FromEntriesGet(pairs[..n], k);
      assert AsRecord(pairs)[..n] == AsRecord(pairs[..n]);
    }
  }

  /** For an object, a key reads its own value when that is defined and is
      missing otherwise. */
  lemma {:induction false} CopyDefinedGet(entries: Rec<QueryValue>, k: string)
    requires DistinctKeys(entries)
    ensures Get(CopyDefined(entries), k) ==
      if Get(entries, k).Some? && !Get(entries, k).value.Undefined? then Get(entries, k) else None
    decreases |entries|
  {
    if |entries| > 0 {
      var n := |entries| - 1;
      var prefix := entries[..n];
      assert DistinctKeys(prefix);
      CopyDefinedGet(prefix, k);
      KeysSnoc(entries);
      var before := CopyDefined(prefix);
      var (key, v) := entries[n];
      assert CopyDefined(entries) == if v.Undefined? then before else Set(before, key, v);
      if key == k {
        assert k !in Keys(prefix);
        assert Get(entries, k) == Some(v);
      } else {
        assert Get(entries, k) == Get(prefix, k);
      }
    }
  }

  /** Object input without `undefined` values comes back unchanged. */
  lemma {:induction false} CopyDefinedIdentity(entries: Rec<QueryValue>)
    requires DistinctKeys(entries)
    requires forall i :: 0 <= i < |entries| ==> !entries[i].1.Undefined?
    ensures CopyDefined(entries) == entries
    decreases |entries|
  {
    if |entries| > 0 {
      var n := |entries| - 1;
      var prefix := entries[..n];
      assert DistinctKeys(prefix);
      CopyDefinedIdentity(prefix);
      KeysSnoc(entries);
      assert entries[n].0 !in Keys(prefix);
      assert prefix + [entries[n]] == entries;
    }
  }

  /** An object argument: keys are only dropped, never added; a kept key
      holds its own value; and without `undefined` values the result is the
      argument itself. */
  lemma ObjectInput(entries: Rec<QueryValue>, decode: Decode, k: string)
    requires DistinctKeys(entries)
    ensures k in Keys(Parse(FromObject(entries), decode)) ==> k in Keys(entries)
    ensures Get(Parse(FromObject(entries), decode), k) ==
      if Get(entries, k).Some? && !Get(entries, k).value.Undefined? then Get(entries, k) else None
    ensures (forall i :: 0 <= i < |entries| ==> !entries[i].1.Undefined?) ==> Parse(FromObject(entries), decode) == entries
  {
    CopyDefinedGet(entries, k);
    if forall i :: 0 <= i < |entries| ==> !entries[i].1.Undefined? {
      CopyDefinedIdentity(entries);
    }
  }

  /** A string argument: each name reads the decoded value of its last pair. */
  lemma StringInput(query: string, decode: Decode, k: string)
    ensures Get(Parse(FromString(query), decode), k) ==
      Get(AsRecord(FormPairs(DropQuestionMark(DropQuestionMark(query)), decode)), k)
  {
    var pairs := FormPairs(DropQuestionMark(DropQuestionMark(query)), decode);
    FromEntriesGet(pairs, k);
    CopyDefinedIdentity(FromEntries(pairs));
  }

  /** A `?` in front of a string that does not start with one changes
      nothing, and neither do two. */
  lemma LeadingQuestionMarks(query: string, decode: Decode)
    requires !StartsWith(query, "?")
    ensures Parse(FromString("?" + query), decode) == Parse(FromString(query), decode)
    ensures Parse(FromString("??" + query), decode) == Parse(FromString(query), decode)
  {
    assert ("?" + query)[1..] == query;
    assert ("??" + query)[1..] == "?" + query;
    assert DropQuestionMark("?" + query) == query;
    assert DropQuestionMark("??" + query) == "?" + query;
    assert DropQuestionMark(query) == query;
  }

  // ---------------------------------------------------------------------
  // The query string of a list of pairs

  /** `name=value`. */
  function Piece(p: Pair): string {
    p.0 + "=" + p.1
  }

  function Pieces(pairs: seq<Pair>): (r: seq<string>)
    ensures |r| == |pairs|
    ensures forall i :: 0 <= i < |pairs| ==> r[i] == Piece(pairs[i])
  {
    seq(|pairs|, i requires 0 <= i < |pairs| => Piece(pairs[i]))
  }

  /** The query string of the pairs, without percent-encoding. */
  function Encode(pairs: seq<Pair>): string {
    Join(Pieces(pairs), "&")
  }

  /** Names and values that need no escaping: no `&`, `=` or `+`. */
  predicate Plain(s: string) {
    '&' !in s && '=' !in s && '+' !in s
  }

  function Decoded(pairs: seq<Pair>, decode: Decode): (r: seq<Pair>)
    ensures |r| == |pairs|
    ensures forall i :: 0 <= i < |pairs| ==> r[i] == (decode(pairs[i].0), decode(pairs[i].1))
  {
    seq(|pairs|, i requires 0 <= i < |pairs| => (decode(pairs[i].0), decode(pairs[i].1)))
  }

  lemma ReplaceAbsent(s: string)
    requires '+' !in s
    ensures ReplaceChar(s, '+', ' ') == s
  {
  }

  /** A piece `name=value` with a plain name splits at the `=` after it. */
  lemma PairOfPiece(p: Pair, decode: Decode)
    requires Plain(p.0) && Plain(p.1)
    ensures PairOf(Piece(p), decode) == (decode(p.0), decode(p.1))
  {
    var s := Piece(p);
    assert OccursAt(s, "=", |p.0|);
    forall j | 0 <= j < |p.0|
      ensures !OccursAt(s, "=", j)
    {
      assert s[j] == p.0[j];
    }
    assert IndexOf(s, "=") == Some(|p.0|);
    assert s[..|p.0|] == p.0;
    assert s[|p.0| + 1..] == p.1;
    ReplaceAbsent(p.0);
    ReplaceAbsent(p.1);
  }

  lemma {:induction false} PairsOfPieces(pairs: seq<Pair>, decode: Decode)
    requires forall i :: 0 <= i < |pairs| ==> Plain(pairs[i].0) && Plain(pairs[i].1)
    ensures PairsOf(Pieces(pairs), decode) == Decoded(pairs, decode)
    decreases |pairs|
  {
    if |pairs| > 0 {
      PairOfPiece(pairs[0], decode);
      assert Pieces(pairs)[1..] == Pieces(pairs[1..]);
      PairsOfPieces(pairs[1..], decode);
      assert Decoded(pairs, decode) == [(decode(pairs[0].0), decode(pairs[0].1))] + Decoded(pairs[1..], decode);
    }
  }

  /** The query string of plain pairs reads back as the same pairs, decoded,
      in the same order. */
  lemma EncodeRoundTrip(pairs: seq<Pair>, decode: Decode)
    requires forall i :: 0 <= i < |pairs| ==> Plain(pairs[i].0) && Plain(pairs[i].1)
    ensures FormPairs(Encode(pairs), decode) == Decoded(pairs, decode)
  {
    var pieces := Pieces(pairs);
    if |pairs| == 0 {
      assert Encode(pairs) == "";
      assert Split("", "&") == [""];
    } else {
      forall i | 0 <= i < |pieces| ensures '&' !in pieces[i] {
        assert pieces[i] == pairs[i].0 + "=" + pairs[i].1;
      }
      SplitJoin(pieces, '&');
      PairsOfPieces(pairs, decode);
    }
  }

  /** `parseUrlParams('?' + query)` for the query string of plain pairs: each
      name reads the decoded value of its last pair. */
  lemma ParseEncoded(pairs: seq<Pair>, decode: Decode, k: string)
    requires forall i :: 0 <= i < |pairs| ==> Plain(pairs[i].0) && Plain(pairs[i].1)
    requires |pairs| > 0 ==> !StartsWith(pairs[0].0, "?")
    ensures Get(Parse(FromString("?" + Encode(pairs)), decode), k) == Get(AsRecord(Decoded(pairs, decode)), k)
  {
    var q := Encode(pairs);
    if |pairs| > 0 {
      var first := Piece(pairs[0]);
      assert first[0] == if |pairs[0].0| > 0 then pairs[0].0[0] else '=';
      assert !StartsWith(first, "?");
      if |pairs| > 1 {
        JoinCons(Piece(pairs[0]), Pieces(pairs)[1..], "&");
        assert Pieces(pairs) == [Piece(pairs[0])] + Pieces(pairs)[1..];
      }
      assert q[..|Piece(pairs[0])|] == Piece(pairs[0]);
    }
    assert !StartsWith(q, "?");
    assert ("?" + q)[1..] == q;
    StringInput("?" + q, decode, k);
    EncodeRoundTrip(pairs, decode);
  }
}
