/** The path guard (src/plugin/builtin/guards.rs) and path canonicalisation
    (src/api/path.rs), against percent-decoding and dot segments as RFC 3986 defines them. */
module Paths {
  import opened Common

  type Byte = b: nat | b < 256

  type Bytes = seq<Byte>

  const SLASH: Byte := 0x2F
  const DOT: Byte := 0x2E
  const BACKSLASH: Byte := 0x5C
  const PERCENT: Byte := 0x25
  const AMPERSAND: Byte := 0x26
  const EQUALS: Byte := 0x3D

  /** Rust's `split` on one byte: always at least one piece. */
  function Split(sep: Byte, s: Bytes): (pieces: seq<Bytes>)
    ensures |pieces| >= 1
  {
    if s == [] then [[]]
    else
      var rest := Split(sep, s[1..]);
      if s[0] == sep then [[]] + rest else [[s[0]] + rest[0]] + rest[1..]
  }

  // ----- RFC 3986

  /** Section 2.1: the value of a hexadecimal digit, in either case. */
  function Hex(b: Byte): Option<nat> {
    if 0x30 <= b <= 0x39 then Some(b - 0x30)
    else if 0x41 <= b <= 0x46 then Some(b - 0x41 + 10)
    else if 0x61 <= b <= 0x66 then Some(b - 0x61 + 10)
    else None
  }

  predicate TripletAt(s: Bytes, k: nat) {
    k + 2 < |s| && s[k] == PERCENT && Hex(s[k + 1]).Some? && Hex(s[k + 2]).Some?
  }

  function TripletValue(s: Bytes, k: nat): Byte
    requires TripletAt(s, k)
  {
    var v := 16 * Hex(s[k + 1]).value + Hex(s[k + 2]).value;
    assert Hex(s[k + 1]).value < 16 && Hex(s[k + 2]).value < 16;
    v
  }

  /** Section 2.1: every triplet becomes its octet; a stray "%" stands for itself. */
  function Decode(s: Bytes): Bytes {
    if s == [] then []
    else if TripletAt(s, 0) then [TripletValue(s, 0)] + Decode(s[3..])
    else [s[0]] + Decode(s[1..])
  }

  predicate IsDots(segment: Bytes) {
    segment == [DOT] || segment == [DOT, DOT]
  }

  /** Where the first segment of the input buffer ends: the next "/" after position 0. */
  function SegmentEnd(s: Bytes, from: nat): (end: nat)
    requires from <= |s|
    ensures from <= end <= |s|
    ensures end < |s| ==> s[end] == SLASH
    ensures forall k | from <= k < end :: s[k] != SLASH
    decreases |s| - from
  {
    if from == |s| || s[from] == SLASH then from else SegmentEnd(s, from + 1)
  }

  /** Drops the last segment of the output buffer and the "/" before it, if any. */
  function DropLast(output: Bytes): Bytes {
    if output == [] then []
    else if output[|output| - 1] == SLASH then output[..|output| - 1]
    else DropLast(output[..|output| - 1])
  }

  /** Section 5.2.4, remove_dot_segments: rules A to E on the input and output buffers. */
  function RemoveDotSegments(input: Bytes, output: Bytes): Bytes
    decreases |input|
  {
    if input == [] then output
    else if [DOT, DOT, SLASH] <= input then RemoveDotSegments(input[3..], output)
    else if [DOT, SLASH] <= input then RemoveDotSegments(input[2..], output)
    else if [SLASH, DOT, SLASH] <= input then RemoveDotSegments(input[2..], output)
    else if input == [SLASH, DOT] then RemoveDotSegments([SLASH], output)
    else if [SLASH, DOT, DOT, SLASH] <= input then RemoveDotSegments(input[3..], DropLast(output))
    else if input == [SLASH, DOT, DOT] then RemoveDotSegments([SLASH], DropLast(output))
    else if IsDots(input) then RemoveDotSegments([], output)
    else
      var end := SegmentEnd(input, 1);
      RemoveDotSegments(input[end..], output + input[..end])
  }

  // ----- the guard

  predicate IsControl(b: Byte) {
    b < 0x20 || b == 0x7F
  }

  function Lower(b: Byte): Byte {
    if 0x41 <= b <= 0x5A then b + 0x20 else b
  }

  /** "%2e", "%2f" or "%5c" in either case. */
  predicate EncodedSeparatorAt(s: Bytes, k: nat) {
    && k + 2 < |s| && s[k] == PERCENT
    && ((s[k + 1] == 0x32 && Lower(s[k + 2]) == 0x65) || (s[k + 1] == 0x32 && Lower(s[k + 2]) == 0x66)
        || (s[k + 1] == 0x35 && Lower(s[k + 2]) == 0x63))
  }

  datatype Limits = Limits(maxPath: nat, maxQuery: nat, maxPairs: nat, allowDuplicateQuery: bool)

  predicate PathAccepted(limits: Limits, path: Bytes) {
    && |path| <= limits.maxPath
    && (forall k | 0 <= k < |path| :: !IsControl(path[k]))
    && BACKSLASH !in path
    && (forall k | 0 <= k < |path| :: !EncodedSeparatorAt(path, k))
    && (forall segment | segment in Split(SLASH, path) :: !IsDots(segment))
  }

  function NonEmpty(pieces: seq<Bytes>): seq<Bytes> {
    if pieces == [] then []
    else (if pieces[0] == [] then [] else [pieces[0]]) + NonEmpty(pieces[1..])
  }

  function Key(pair: Bytes): Bytes {
    Split(EQUALS, pair)[0]
  }

  predicate Distinct(pairs: seq<Bytes>) {
    forall a, b | 0 <= a < b < |pairs| :: Key(pairs[a]) != Key(pairs[b])
  }

  predicate QueryAccepted(limits: Limits, query: Bytes) {
    var pairs := Pairs(query);
    && |query| <= limits.maxQuery
    && (forall k | 0 <= k < |query| :: !IsControl(query[k]))
    && |pairs| <= limits.maxPairs
    && (limits.allowDuplicateQuery || Distinct(pairs))
  }

  datatype Rejection = PathTooLong | PathControl | PathBackslash | PathEncoded | PathDots
    | QueryTooLong | QueryControl | DuplicateKey | TooManyPairs

  /** The order in which the guard looks. */
  function Rank(r: Rejection): nat {
    match r
    case PathTooLong => 0
    case PathControl => 1
    case PathBackslash => 2
    case PathEncoded => 3
    case PathDots => 4
    case QueryTooLong => 5
    case QueryControl => 6
    case DuplicateKey => 7
    case TooManyPairs => 8
  }

  ghost predicate Violates(limits: Limits, path: Bytes, query: Option<Bytes>, r: Rejection) {
    match r
    case PathTooLong => |path| > limits.maxPath
    case PathControl => exists k | 0 <= k < |path| :: IsControl(path[k])
    case PathBackslash => BACKSLASH in path
    case PathEncoded => exists k | 0 <= k < |path| :: EncodedSeparatorAt(path, k)
    case PathDots => exists segment | segment in Split(SLASH, path) :: IsDots(segment)
    case QueryTooLong => query.Some? && |query.value| > limits.maxQuery
    case QueryControl => query.Some? && exists k | 0 <= k < |query.value| :: IsControl(query.value[k])
    case DuplicateKey => query.Some? && RepeatsAKey(limits, Pairs(query.value))
    case TooManyPairs => query.Some? && |Pairs(query.value)| > limits.maxPairs
  }

  /** A key comes twice among the parameters the guard gets to see. */
  ghost predicate RepeatsAKey(limits: Limits, pairs: seq<Bytes>) {
    !limits.allowDuplicateQuery && !Distinct(if |pairs| <= limits.maxPairs then pairs else pairs[..limits.maxPairs])
  }

  function Pairs(query: Bytes): seq<Bytes> {
    NonEmpty(Split(AMPERSAND, query))
  }

  method AnyControl(s: Bytes) returns (found: bool)
    ensures found <==> exists k | 0 <= k < |s| :: s[k] <= 0x1F || s[k] == 0x7F
  {
    for i := 0 to |s|
      invariant forall k | 0 <= k < i :: !IsControl(s[k])
    {
      if IsControl(s[i]) {
        return true;
      }
    }
    return false;
  }

  method ContainsEncodedSeparator(s: Bytes) returns (found: bool)
    ensures found <==> exists k | 0 <= k < |s| :: EncodedSeparatorAt(s, k)
  {
    for i := 0 to |s|
      invariant forall k | 0 <= k < i :: !EncodedSeparatorAt(s, k)
    {
      if EncodedSeparatorAt(s, i) {
        return true;
      }
    }
    return false;
  }

  /** The loop over the query's parameters, growing the set of keys seen. */
  method CheckPairs(limits: Limits, pairs: seq<Bytes>) returns (rejection: Option<Rejection>)
    ensures match rejection
      case None => |pairs| <= limits.maxPairs && !RepeatsAKey(limits, pairs)
      case Some(r) =>
        if r == TooManyPairs then |pairs| > limits.maxPairs && !RepeatsAKey(limits, pairs)
        else r == DuplicateKey && RepeatsAKey(limits, pairs)
  {
    var seen := {};
    for i := 0 to |pairs|
      invariant i <= limits.maxPairs || i == 0
      invariant forall key :: key in seen <==> exists k | 0 <= k < i :: Key(pairs[k]) == key
      invariant !limits.allowDuplicateQuery ==> Distinct(pairs[..i])
    {
      if i >= limits.maxPairs {
        assert i == limits.maxPairs;
        return Some(TooManyPairs);
      }
      var key := Key(pairs[i]);
      if key in seen && !limits.allowDuplicateQuery {
        return Some(DuplicateKey);
      }
      seen := seen + {key};
    }
    assert pairs[..|pairs|] == pairs;
    return None;
  }

  /** PathLimits::check answers with the first rule that is broken, if any. */
  method Check(limits: Limits, path: Bytes, query: Option<Bytes>) returns (rejection: Option<Rejection>)
    ensures rejection.None? <==> PathAccepted(limits, path) && (query.Some? ==> QueryAccepted(limits, query.value))
    ensures rejection.None? ==> forall r :: !Violates(limits, path, query, r)
    ensures rejection.Some? ==> Violates(limits, path, query, rejection.value)
    ensures rejection.Some? ==> forall r | Rank(r) < Rank(rejection.value) :: !Violates(limits, path, query, r)
  {
    if |path| > limits.maxPath {
      return Some(PathTooLong);
    }
    var control := AnyControl(path);
    if control {
      return Some(PathControl);
    }
    if BACKSLASH in path {
      return Some(PathBackslash);
    }
    var encoded := ContainsEncodedSeparator(path);
    if encoded {
      return Some(PathEncoded);
    }
    if exists segment | segment in Split(SLASH, path) :: IsDots(segment) {
      return Some(PathDots);
    }
    if query.None? {
      return None;
    }
    if |query.value| > limits.maxQuery {
      return Some(QueryTooLong);
    }
    control := AnyControl(query.value);
    if control {
      return Some(QueryControl);
    }
    rejection := CheckPairs(limits, Pairs(query.value));
  }

  // ----- canonicalisation

  predicate HasEmptySegment(path: Bytes) {
    exists k | 0 <= k < |path| - 1 :: path[k] == SLASH && path[k + 1] == SLASH
  }

  function TrimEnd(path: Bytes): Bytes {
    if path != [] && path[|path| - 1] == SLASH then TrimEnd(path[..|path| - 1]) else path
  }

  function Canonical(path: Bytes): Bytes {
    if |path| <= 1 || path[|path| - 1] != SLASH then path else TrimEnd(path)
  }

  class Request {
    var path: Bytes
    var query: Option<Bytes>

    constructor (path: Bytes, query: Option<Bytes>)
      ensures this.path == path && this.query == query
    {
      this.path := path;
      this.query := query;
    }

    /** CanonicalPath::call: refuses an empty segment, otherwise rewrites the path in place. */
    method Canonicalise() returns (forwarded: bool)
      modifies this
      ensures forwarded <==> !HasEmptySegment(old(path))
      ensures path == if forwarded then Canonical(old(path)) else old(path)
      ensures query == old(query)
    {
      if exists k | 0 <= k < |path| - 1 :: path[k] == SLASH && path[k + 1] == SLASH {
        return false;
      }
      if |path| > 1 && path[|path| - 1] == SLASH {
        path := TrimEnd(path);
      }
      return true;
    }
  }

  // ----- what the two of them guarantee

  function DecodeAll(pieces: seq<Bytes>): seq<Bytes> {
    seq(|pieces|, i requires 0 <= i < |pieces| => Decode(pieces[i]))
  }

  ghost predicate NoEncodedSeparator(s: Bytes) {
    forall k {:trigger EncodedSeparatorAt(s, k)} | 0 <= k < |s| :: !EncodedSeparatorAt(s, k)
  }

  lemma NoEncodedSeparatorInSuffix(s: Bytes, k: nat)
    requires NoEncodedSeparator(s) && k <= |s|
    ensures NoEncodedSeparator(s[k..])
  {
    forall i | 0 <= i < |s[k..]| ensures !EncodedSeparatorAt(s[k..], i) {
      assert EncodedSeparatorAt(s[k..], i) == EncodedSeparatorAt(s, k + i);
    }
  }

  /** An octet that a triplet could stand for, but not ".", "/" or "\". */
  lemma TripletsAreHarmless(s: Bytes)
    requires NoEncodedSeparator(s) && TripletAt(s, 0)
    ensures TripletValue(s, 0) != DOT && TripletValue(s, 0) != SLASH && TripletValue(s, 0) != BACKSLASH
  {
    assert !EncodedSeparatorAt(s, 0);
  }

  lemma {:induction false} SplitPrefixed(prefix: Bytes, rest: Bytes)
    requires SLASH !in prefix
    ensures var pieces := Split(SLASH, rest);
      Split(SLASH, prefix + rest) == [prefix + pieces[0]] + pieces[1..]
  {
    if prefix == [] {
      assert prefix + rest == rest && prefix + Split(SLASH, rest)[0] == Split(SLASH, rest)[0];
    } else {
      SplitPrefixed(prefix[1..], rest);
      assert (prefix + rest)[1..] == prefix[1..] + rest;
      assert [prefix[0]] + (prefix[1..] + Split(SLASH, rest)[0]) == prefix + Split(SLASH, rest)[0];
    }
  }

  /** The first piece is what stands before the first "/". */
  lemma SplitHead(head: Bytes, s: Bytes)
    requires SLASH !in head && (s == head || head + [SLASH] <= s)
    ensures Split(SLASH, s) == [head] + if s == head then [] else Split(SLASH, s[|head| + 1..])
  {
    var rest := s[|head|..];
    assert s == head + rest;
    SplitPrefixed(head, rest);
    assert head + [] == head;
    if rest != [] {
      assert rest[0] == SLASH && rest[1..] == s[|head| + 1..];
    }
  }

  lemma TripletHeadSplits(s: Bytes)
    requires NoEncodedSeparator(s) && TripletAt(s, 0)
    ensures var rest := Split(SLASH, s[3..]);
      Split(SLASH, s) == [s[..3] + rest[0]] + rest[1..]
        && Decode(s[..3] + rest[0]) == [TripletValue(s, 0)] + Decode(rest[0])
  {
    assert s[..3] == [s[0], s[1], s[2]] && s[..3] + s[3..] == s;
    SplitPrefixed(s[..3], s[3..]);
    var head := s[..3] + Split(SLASH, s[3..])[0];
    assert TripletAt(head, 0) && head[3..] == Split(SLASH, s[3..])[0];
  }

  lemma DecodeAllFront(pieces: seq<Bytes>)
    requires pieces != []
    ensures DecodeAll(pieces) == [Decode(pieces[0])] + DecodeAll(pieces[1..])
  {
  }

  /** Decoding commutes with splitting: no octet is a separator only before or only after. */
  lemma {:induction false} DecodeCommutesWithSplit(s: Bytes)
    requires NoEncodedSeparator(s)
    ensures Split(SLASH, Decode(s)) == DecodeAll(Split(SLASH, s))
    decreases |s|
  {
    if s == [] {
    } else if TripletAt(s, 0) {
      NoEncodedSeparatorInSuffix(s, 3);
      DecodeCommutesWithSplit(s[3..]);
      TripletsAreHarmless(s);
      TripletHeadSplits(s);
      DecodeAllFront(Split(SLASH, s));
      DecodeAllFront(Split(SLASH, s[3..]));
      assert Decode(s)[1..] == Decode(s[3..]);
    } else {
      NoEncodedSeparatorInSuffix(s, 1);
      DecodeCommutesWithSplit(s[1..]);
      DecodeAllFront(Split(SLASH, s));
      assert Decode(s)[1..] == Decode(s[1..]);
      if s[0] != SLASH {
        DecodeAllFront(Split(SLASH, s[1..]));
        PlainHeadDecodes(s);
      }
    }
  }

  lemma PlainHeadDecodes(s: Bytes)
    requires s != [] && !TripletAt(s, 0) && s[0] != SLASH
    ensures var rest := Split(SLASH, s[1..]);
      Decode([s[0]] + rest[0]) == [s[0]] + Decode(rest[0])
  {
    var rest := Split(SLASH, s[1..]);
    var head := [s[0]] + rest[0];
    FirstPieceIsPrefix(s[1..]);
    assert forall k | 0 <= k < |head| :: head[k] == s[k];
    assert head[1..] == rest[0];
  }

  lemma {:induction false} FirstPieceIsPrefix(s: Bytes)
    ensures Split(SLASH, s)[0] <= s
    ensures SLASH !in Split(SLASH, s)[0]
  {
    if s != [] {
      FirstPieceIsPrefix(s[1..]);
    }
  }

  lemma {:induction false} NoBackslashDecoded(s: Bytes)
    requires NoEncodedSeparator(s) && BACKSLASH !in s
    ensures BACKSLASH !in Decode(s)
    decreases |s|
  {
    if s == [] {
    } else if TripletAt(s, 0) {
      TripletsAreHarmless(s);
      NoEncodedSeparatorInSuffix(s, 3);
      NoBackslashDecoded(s[3..]);
    } else {
      NoEncodedSeparatorInSuffix(s, 1);
      NoBackslashDecoded(s[1..]);
    }
  }

  lemma LeadingDotIsPlain(s: Bytes)
    requires NoEncodedSeparator(s) && Decode(s) != [] && Decode(s)[0] == DOT
    ensures s != [] && s[0] == DOT && Decode(s)[1..] == Decode(s[1..])
  {
    if TripletAt(s, 0) {
      TripletsAreHarmless(s);
    }
  }

  /** A segment decodes to dots only if it is dots. */
  lemma DotsDecodeFromDots(segment: Bytes)
    requires NoEncodedSeparator(segment) && IsDots(Decode(segment))
    ensures IsDots(segment)
  {
    LeadingDotIsPlain(segment);
    NoEncodedSeparatorInSuffix(segment, 1);
    if |Decode(segment)| == 2 {
      LeadingDotIsPlain(segment[1..]);
      assert segment == [DOT, DOT] + segment[1..][1..];
    } else {
      assert segment == [DOT] + segment[1..];
    }
  }

  lemma {:induction false} NoEncodedSeparatorInPieces(s: Bytes, i: nat)
    requires NoEncodedSeparator(s) && i < |Split(SLASH, s)|
    ensures NoEncodedSeparator(Split(SLASH, s)[i])
  {
    if s != [] {
      NoEncodedSeparatorInSuffix(s, 1);
      var rest := Split(SLASH, s[1..]);
      if s[0] == SLASH {
        if i > 0 {
          NoEncodedSeparatorInPieces(s[1..], i - 1);
        }
      } else if i > 0 {
        NoEncodedSeparatorInPieces(s[1..], i);
      } else {
        FirstPieceIsPrefix(s);
        var piece := Split(SLASH, s)[0];
        forall k | 0 <= k < |piece| ensures !EncodedSeparatorAt(piece, k) {
          assert EncodedSeparatorAt(piece, k) ==> EncodedSeparatorAt(s, k);
        }
      }
    }
  }

  ghost predicate NoDotSegment(s: Bytes) {
    forall i | 0 <= i < |Split(SLASH, s)| :: !IsDots(Split(SLASH, s)[i])
  }

  lemma Rejoin(output: Bytes, input: Bytes, end: nat)
    requires end <= |input|
    ensures output + input[..end] + input[end..] == output + input
  {
  }

  /** No rule from A to D applies. */
  predicate OnlyEApplies(input: Bytes) {
    && input != [] && !([DOT, DOT, SLASH] <= input) && !([DOT, SLASH] <= input) && !IsDots(input)
    && !([SLASH, DOT, SLASH] <= input) && input != [SLASH, DOT]
    && !([SLASH, DOT, DOT, SLASH] <= input) && input != [SLASH, DOT, DOT]
  }

  lemma OnlyRuleE(input: Bytes, output: Bytes)
    requires OnlyEApplies(input)
    ensures var end := SegmentEnd(input, 1);
      RemoveDotSegments(input, output) == RemoveDotSegments(input[end..], output + input[..end])
  {
  }

  /** Rules A to D of remove_dot_segments never apply to a path without dot segments, so it
      comes out unchanged. */
  lemma {:induction false} NothingToRemove(input: Bytes, output: Bytes)
    requires NoDotSegment(input)
    ensures RemoveDotSegments(input, output) == output + input
    decreases |input|
  {
    if input != [] {
      var end := SegmentEnd(input, 1);
      NoRuleApplies(input);
      OnlyRuleE(input, output);
      RestHasNoDots(input, end);
      NothingToRemove(input[end..], output + input[..end]);
      Rejoin(output, input, end);
    }
  }

  lemma RestHasNoDots(input: Bytes, end: nat)
    requires input != [] && NoDotSegment(input) && end == SegmentEnd(input, 1)
    ensures NoDotSegment(input[end..])
  {
    var start := if input[0] == SLASH then 1 else 0;
    var body := input[start..];
    assert start == 1 ==> Split(SLASH, input) == [[]] + Split(SLASH, body);
    var head := input[start..end];
    assert body == head + input[end..];
    SplitPrefixed(head, input[end..]);
    var pieces := Split(SLASH, input[end..]);
    assert pieces[0] == [] by {
      if end < |input| {
        assert input[end..][0] == SLASH;
      }
    }
    forall i | 0 <= i < |pieces| ensures !IsDots(pieces[i]) {
      assert i > 0 ==> pieces[i] == Split(SLASH, body)[i] == Split(SLASH, input)[start + i];
    }
  }

  lemma NoRuleApplies(input: Bytes)
    requires input != [] && NoDotSegment(input)
    ensures OnlyEApplies(input)
  {
    NoDotsAhead(input);
    if input[0] == SLASH {
      var tail := input[1..];
      assert Split(SLASH, input) == [[]] + Split(SLASH, tail);
      forall i | 0 <= i < |Split(SLASH, tail)| ensures !IsDots(Split(SLASH, tail)[i]) {
        assert Split(SLASH, tail)[i] == Split(SLASH, input)[i + 1];
      }
      NoDotsAhead(tail);
      assert [SLASH, DOT, SLASH] <= input ==> [DOT, SLASH] <= tail;
      assert [SLASH, DOT, DOT, SLASH] <= input ==> [DOT, DOT, SLASH] <= tail;
    }
  }

  lemma NoDotsAhead(s: Bytes)
    requires NoDotSegment(s)
    ensures !IsDots(s) && !([DOT, SLASH] <= s) && !([DOT, DOT, SLASH] <= s)
  {
    var first := Split(SLASH, s)[0];
    assert !IsDots(first);
    if IsDots(s) {
      SplitHead(s, s);
    } else if [DOT, SLASH] <= s {
      SplitHead([DOT], s);
    } else if [DOT, DOT, SLASH] <= s {
      SplitHead([DOT, DOT], s);
    }
  }

  lemma TrimmedOnce(path: Bytes)
    requires !HasEmptySegment(path) && |path| > 1 && path[|path| - 1] == SLASH
    ensures Canonical(path) == path[..|path| - 1]
    ensures path[|path| - 2] != SLASH
  {
    assert path[|path| - 2] != SLASH;
    assert TrimEnd(path) == TrimEnd(path[..|path| - 1]);
  }

  lemma {:induction false} SplitDropsLast(s: Bytes)
    requires s != [] && s[|s| - 1] == SLASH
    ensures Split(SLASH, s) == Split(SLASH, s[..|s| - 1]) + [[]]
  {
    if |s| > 1 {
      SplitDropsLast(s[1..]);
      assert s[1..][..|s| - 2] == s[..|s| - 1][1..];
    } else {
      assert s == [SLASH] && s[..0] == [];
    }
  }

  /** Canonicalising keeps a path acceptable and is idempotent. */
  lemma CanonicalStaysAccepted(limits: Limits, path: Bytes)
    requires PathAccepted(limits, path) && !HasEmptySegment(path)
    ensures PathAccepted(limits, Canonical(path))
    ensures !HasEmptySegment(Canonical(path)) && Canonical(Canonical(path)) == Canonical(path)
  {
    if |path| > 1 && path[|path| - 1] == SLASH {
      TrimmedOnce(path);
      SplitDropsLast(path);
      var trimmed := path[..|path| - 1];
      forall k | 0 <= k < |trimmed| ensures !EncodedSeparatorAt(trimmed, k) {
        assert EncodedSeparatorAt(trimmed, k) ==> EncodedSeparatorAt(path, k);
      }
      forall segment | segment in Split(SLASH, trimmed) ensures !IsDots(segment) {
        assert segment in Split(SLASH, path);
      }
    }
  }

  /** A path that passes the guard and the canonicaliser reads the same whoever decodes it and
      whenever: decoding before or after splitting gives the same segments, none of them is a
      dot segment or holds a backslash, resolving dot segments changes nothing, and so does
      canonicalising again. */
  lemma AcceptedPathsAreUnambiguous(limits: Limits, path: Bytes)
    requires PathAccepted(limits, path) && !HasEmptySegment(path)
    ensures var c := Canonical(path);
      && Split(SLASH, Decode(c)) == DecodeAll(Split(SLASH, c))
      && (forall segment | segment in Split(SLASH, Decode(c)) :: !IsDots(segment))
      && BACKSLASH !in Decode(c)
      && RemoveDotSegments(Decode(c), []) == Decode(c)
      && Canonical(c) == c && !HasEmptySegment(c)
  {
    CanonicalStaysAccepted(limits, path);
    var c := Canonical(path);
    DecodeCommutesWithSplit(c);
    NoBackslashDecoded(c);
    forall i | 0 <= i < |Split(SLASH, Decode(c))| ensures !IsDots(Split(SLASH, Decode(c))[i]) {
      var segment := Split(SLASH, c)[i];
      assert segment in Split(SLASH, c);
      NoEncodedSeparatorInPieces(c, i);
      if IsDots(Decode(segment)) {
        DotsDecodeFromDots(segment);
      }
    }
    NothingToRemove(Decode(c), []);
  }

  // ----- what the words above mean

  lemma {:induction false} SplitAppends(sep: Byte, a: Bytes, b: Bytes)
    ensures Split(sep, a + [sep] + b) == Split(sep, a) + Split(sep, b)
  {
    if a == [] {
      assert [] + [sep] + b == [sep] + b;
    } else {
      assert (a + [sep] + b)[1..] == a[1..] + [sep] + b;
      SplitAppends(sep, a[1..], b);
    }
  }

  lemma {:induction false} SplitOne(sep: Byte, s: Bytes)
    requires sep !in s
    ensures Split(sep, s) == [s]
  {
    if s != [] {
      SplitOne(sep, s[1..]);
      assert [s[0]] + s[1..] == s;
    }
  }

  function Join(sep: Byte, pieces: seq<Bytes>): Bytes
    requires pieces != []
  {
    if |pieces| == 1 then pieces[0] else pieces[0] + [sep] + Join(sep, pieces[1..])
  }

  lemma {:induction false} SplitInvertsJoin(sep: Byte, pieces: seq<Bytes>)
    requires pieces != [] && forall k | 0 <= k < |pieces| :: sep !in pieces[k]
    ensures Split(sep, Join(sep, pieces)) == pieces
  {
    SplitOne(sep, pieces[0]);
    if |pieces| > 1 {
      SplitInvertsJoin(sep, pieces[1..]);
      SplitAppends(sep, pieces[0], Join(sep, pieces[1..]));
    }
  }

  lemma {:induction false} NonEmptyKeepsAll(pieces: seq<Bytes>)
    requires forall k | 0 <= k < |pieces| :: pieces[k] != []
    ensures NonEmpty(pieces) == pieces
  {
    if pieces != [] {
      NonEmptyKeepsAll(pieces[1..]);
    }
  }

  /** The key of a parameter is the text before its first "=", or all of it. */
  lemma KeyMeans(pair: Bytes, key: Bytes)
    ensures Key(pair) == key <==> EQUALS !in key && (pair == key || key + [EQUALS] <= pair)
  {
    KeyIsPrefix(pair);
    if EQUALS !in key && pair == key {
      SplitOne(EQUALS, key);
    } else if EQUALS !in key && key + [EQUALS] <= pair {
      var rest := pair[|key| + 1..];
      assert pair == key + [EQUALS] + rest;
      SplitOne(EQUALS, key);
      SplitAppends(EQUALS, key, rest);
    }
  }

  lemma {:induction false} KeyIsPrefix(pair: Bytes)
    ensures EQUALS !in Key(pair) && (pair == Key(pair) || Key(pair) + [EQUALS] <= pair)
  {
    if pair != [] && pair[0] != EQUALS {
      KeyIsPrefix(pair[1..]);
      assert pair == [pair[0]] + pair[1..];
    }
  }

  /** Parameters joined by "&", none of them empty: the guard sees those, and where it does not allow it, two
      of them with the same text before "=" have the query refused. */
  lemma DuplicatesAreRefused(limits: Limits, pairs: seq<Bytes>, i: nat, j: nat)
    requires pairs != [] && forall k | 0 <= k < |pairs| :: pairs[k] != [] && AMPERSAND !in pairs[k]
    ensures Pairs(Join(AMPERSAND, pairs)) == pairs
    ensures i < j < |pairs| && Key(pairs[i]) == Key(pairs[j]) && !limits.allowDuplicateQuery
      ==> !QueryAccepted(limits, Join(AMPERSAND, pairs))
  {
    SplitInvertsJoin(AMPERSAND, pairs);
    NonEmptyKeepsAll(pairs);
  }

  /** The triplets refused are those that decode to ".", "/" or "\", and no others. */
  lemma EncodedSeparatorMeans(s: Bytes, k: nat)
    ensures EncodedSeparatorAt(s, k)
      <==> TripletAt(s, k) && (var v := TripletValue(s, k); v == DOT || v == SLASH || v == BACKSLASH)
  {
  }

  function HexDigit(v: nat, upper: bool): Byte
    requires v < 16
  {
    if v < 10 then 0x30 + v else if upper then 0x41 + (v - 10) else 0x61 + (v - 10)
  }

  /** Percent-encodes the octets chosen, in either case. */
  function Escape(s: Bytes, chosen: Byte -> bool, upper: Byte -> bool): Bytes {
    if s == [] then []
    else (if chosen(s[0])
          then [PERCENT, HexDigit(s[0] / 16, upper(s[0])), HexDigit(s[0] % 16, upper(s[0]))]
          else [s[0]]) + Escape(s[1..], chosen, upper)
  }

  /** Decoding undoes every percent-encoding that encodes "%" itself. */
  lemma {:induction false} DecodeInvertsEscape(s: Bytes, chosen: Byte -> bool, upper: Byte -> bool)
    requires chosen(PERCENT)
    ensures Decode(Escape(s, chosen, upper)) == s
  {
    if s != [] {
      DecodeInvertsEscape(s[1..], chosen, upper);
      var e := Escape(s, chosen, upper);
      if chosen(s[0]) {
        assert e[3..] == Escape(s[1..], chosen, upper);
        assert TripletAt(e, 0) && TripletValue(e, 0) == s[0];
      } else {
        assert e[1..] == Escape(s[1..], chosen, upper);
      }
      assert [s[0]] + s[1..] == s;
    }
  }

  /** The root path stands, and so does every path that does not end in "/"; of any other the "/" goes. */
  lemma CanonicalMeans(path: Bytes)
    requires path != [] && path[|path| - 1] != SLASH
    ensures Canonical([SLASH]) == [SLASH] && Canonical([]) == []
    ensures Canonical(path) == path
    ensures Canonical(path + [SLASH]) == path
  {
    var longer := path + [SLASH];
    assert longer[..|longer| - 1] == path;
    assert TrimEnd(longer) == TrimEnd(path);
  }

  ghost predicate InnerEmpty(pieces: seq<Bytes>) {
    exists i :: 0 < i < |pieces| - 1 && pieces[i] == []
  }

  lemma InnerShifts(first: Bytes, pieces: seq<Bytes>)
    requires pieces != []
    ensures InnerEmpty([first] + pieces) <==> (|pieces| > 1 && pieces[0] == []) || InnerEmpty(pieces)
    ensures InnerEmpty([first] + pieces[1..]) <==> InnerEmpty(pieces)
  {
    var longer, same := [first] + pieces, [first] + pieces[1..];
    assert forall i | 0 <= i < |pieces| :: longer[i + 1] == pieces[i] && (i > 0 ==> same[i] == pieces[i]);
    if |pieces| > 1 && pieces[0] == [] {
      assert longer[1] == [];
    }
    if i :| 0 < i < |pieces| - 1 && pieces[i] == [] {
      assert longer[i + 1] == [];
    }
    if i :| 0 < i < |longer| - 1 && longer[i] == [] {
      assert pieces[i - 1] == [];
    }
  }

  /** A path is refused for an empty segment exactly when a piece between two "/" is empty. */
  lemma {:induction false} EmptySegmentMeans(path: Bytes)
    ensures HasEmptySegment(path) <==> InnerEmpty(Split(SLASH, path))
  {
    if |path| > 1 {
      var rest, after := path[1..], Split(SLASH, path[1..]);
      EmptySegmentMeans(rest);
      LaterEmptySegment(path);
      InnerShifts(if path[0] == SLASH then [] else [path[0]] + after[0], after);
      assert (after[0] == [] && |after| > 1) <==> rest[0] == SLASH;
    }
  }

  lemma LaterEmptySegment(path: Bytes)
    requires |path| > 1
    ensures HasEmptySegment(path) <==> (path[0] == SLASH && path[1] == SLASH) || HasEmptySegment(path[1..])
  {
    var rest := path[1..];
    if k :| 0 <= k < |path| - 1 && path[k] == SLASH && path[k + 1] == SLASH {
      assert k > 0 ==> rest[k - 1] == SLASH && rest[k - 1 + 1] == SLASH;
    }
    if k :| 0 <= k < |rest| - 1 && rest[k] == SLASH && rest[k + 1] == SLASH {
      assert path[k + 1] == SLASH && path[k + 1 + 1] == SLASH;
    }
  }

  // Removing dot segments leaves none.

  lemma {:induction false} DropLastMeans(output: Bytes) returns (segment: Bytes)
    ensures SLASH !in segment
    ensures if SLASH in output then output == DropLast(output) + [SLASH] + segment
            else DropLast(output) == [] && segment == output
  {
    segment := [];
    if output != [] {
      var n := |output| - 1;
      assert output == output[..n] + [output[n]];
      if output[n] != SLASH {
        var front := DropLastMeans(output[..n]);
        segment := front + [output[n]];
      }
    }
  }

  lemma SegmentIsNoDots(input: Bytes)
    requires OnlyEApplies(input)
    ensures !IsDots(input[..SegmentEnd(input, 1)])
    ensures input[0] == SLASH ==> !IsDots(input[1..SegmentEnd(input, 1)])
  {
    var end := SegmentEnd(input, 1);
    var head := input[..end];
    assert end == |input| ==> head == input;
    assert end < |input| ==> head + [SLASH] <= input;
    if input[0] == SLASH {
      assert head == [SLASH] + input[1..end];
      assert head != [SLASH, DOT] && head != [SLASH, DOT, DOT];
    }
  }

  lemma AppendedIsNoDots(output: Bytes, segment: Bytes)
    requires NoDotSegment(output) && SLASH !in segment && !IsDots(segment)
    ensures NoDotSegment(output + [SLASH] + segment) && NoDotSegment(segment)
  {
    SplitOne(SLASH, segment);
    SplitAppends(SLASH, output, segment);
    var pieces := Split(SLASH, output + [SLASH] + segment);
    forall i | 0 <= i < |pieces| ensures !IsDots(pieces[i]) {
      assert i < |pieces| - 1 ==> pieces[i] == Split(SLASH, output)[i];
    }
  }

  /** Rule E moves a segment that is no dot segment. */
  lemma MovedIsNoDots(input: Bytes, output: Bytes)
    requires OnlyEApplies(input) && NoDotSegment(output) && (output == [] || input[0] == SLASH)
    ensures NoDotSegment(output + input[..SegmentEnd(input, 1)])
  {
    var end := SegmentEnd(input, 1);
    SegmentIsNoDots(input);
    if input[0] == SLASH {
      AppendedIsNoDots(output, input[1..end]);
      assert output + input[..end] == output + [SLASH] + input[1..end];
    } else {
      AppendedIsNoDots(output, input[..end]);
      assert output + input[..end] == input[..end];
    }
  }

  lemma DropKeepsNoDots(output: Bytes)
    requires NoDotSegment(output)
    ensures NoDotSegment(DropLast(output))
  {
    var segment := DropLastMeans(output);
    if SLASH in output {
      SplitAppends(SLASH, DropLast(output), segment);
      forall i | 0 <= i < |Split(SLASH, DropLast(output))| ensures !IsDots(Split(SLASH, DropLast(output))[i]) {
        assert Split(SLASH, DropLast(output))[i] == Split(SLASH, output)[i];
      }
    }
  }

  lemma {:induction false} NoDotsRemain(input: Bytes, output: Bytes)
    requires NoDotSegment(output) && (output == [] || input == [] || input[0] == SLASH)
    ensures NoDotSegment(RemoveDotSegments(input, output))
    decreases |input|
  {
    DropKeepsNoDots(output);
    if input == [] {
    } else if [DOT, DOT, SLASH] <= input {
      NoDotsRemain(input[3..], output);
    } else if [DOT, SLASH] <= input || [SLASH, DOT, SLASH] <= input {
      NoDotsRemain(input[2..], output);
    } else if input == [SLASH, DOT] {
      NoDotsRemain([SLASH], output);
    } else if [SLASH, DOT, DOT, SLASH] <= input {
      NoDotsRemain(input[3..], DropLast(output));
    } else if input == [SLASH, DOT, DOT] {
      NoDotsRemain([SLASH], DropLast(output));
    } else if IsDots(input) {
      NoDotsRemain([], output);
    } else {
      var end := SegmentEnd(input, 1);
      MovedIsNoDots(input, output);
      NoDotsRemain(input[end..], output + input[..end]);
    }
  }

  /** Resolving dot segments changes a path exactly when it has one, and leaves none. */
  lemma DotSegmentsGo(path: Bytes)
    ensures NoDotSegment(RemoveDotSegments(path, []))
    ensures RemoveDotSegments(path, []) == path <==> NoDotSegment(path)
  {
    assert Split(SLASH, []) == [[]];
    NoDotsRemain(path, []);
    if NoDotSegment(path) {
      NothingToRemove(path, []);
      assert [] + path == path;
    }
  }

  /** ".." takes the segment before it away: "/a/../b" is "/b". */
  lemma DotsTakeASegment(a: Byte, b: Byte)
    requires a != SLASH && a != DOT && b != SLASH && b != DOT
    ensures RemoveDotSegments([SLASH, a, SLASH, DOT, DOT, SLASH, b], []) == [SLASH, b]
    ensures RemoveDotSegments([SLASH, a, SLASH, DOT, SLASH, b], []) == [SLASH, a, SLASH, b]
  {
    var up, here := [SLASH, DOT, DOT, SLASH, b], [SLASH, DOT, SLASH, b];
    FirstSegmentMoves(a, up);
    FirstSegmentMoves(a, here);
    assert [SLASH, a] + up == [SLASH, a, SLASH, DOT, DOT, SLASH, b];
    assert [SLASH, a] + here == [SLASH, a, SLASH, DOT, SLASH, b];
    assert up[3..] == [SLASH, b] && here[2..] == [SLASH, b];
    assert DropLast([SLASH, a]) == [];
    LastSegmentMoves(b, []);
    LastSegmentMoves(b, [SLASH, a]);
  }

  lemma FirstSegmentMoves(a: Byte, rest: Bytes)
    requires a != SLASH && a != DOT && rest != [] && rest[0] == SLASH
    ensures RemoveDotSegments([SLASH, a] + rest, []) == RemoveDotSegments(rest, [SLASH, a])
  {
    var input := [SLASH, a] + rest;
    assert input[0] == SLASH && input[1] == a && input[2] == SLASH;
    assert OnlyEApplies(input);
    OnlyRuleE(input, []);
    assert SegmentEnd(input, 2) == 2 && SegmentEnd(input, 1) == 2;
    assert input[2..] == rest && [] + input[..2] == [SLASH, a];
  }

  lemma LastSegmentMoves(b: Byte, output: Bytes)
    requires b != SLASH && b != DOT
    ensures RemoveDotSegments([SLASH, b], output) == output + [SLASH, b]
  {
    assert SegmentEnd([SLASH, b], 1) == 2 && [SLASH, b][2..] == [] && [SLASH, b][..2] == [SLASH, b];
  }
}
