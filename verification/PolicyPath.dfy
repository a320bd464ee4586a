/**
 Canonical policy paths: percent escapes of path characters are decoded, everything ambiguous is refused.

 Paths are byte strings; `pchar` is that of section 3.3 of RFC 3986.
 */
module PolicyPath {
  import opened Basics

  const PERCENT: Byte := 0x25
  const SLASH: Byte := 0x2F
  const BACKSLASH: Byte := 0x5C
  const DOT: Byte := 0x2E
  const QUESTION: Byte := 0x3F
  const HASH: Byte := 0x23

  datatype Rejection =
    | InvalidEscape | DoubleEncoding | EncodedSeparator | EncodedBackslash | LiteralBackslash
    | EncodedControl | UnrepresentableEscape | AmbiguousDotSegment | LiteralDotSegment

  datatype Result = Ok(path: Bytes) | Err(why: Rejection)

  /** Whether literal bytes are held to the contract, or only escapes. */
  datatype Structure = Enforced | PatternOnly

  // ----- characters -----

  function HexValue(b: Byte): Option<nat> {
    if 0x30 <= b <= 0x39 then Some(b - 0x30)
    else if 0x61 <= b <= 0x66 then Some(b - 0x61 + 10)
    else if 0x41 <= b <= 0x46 then Some(b - 0x41 + 10)
    else None
  }

  predicate Alphanumeric(b: Byte) { 0x30 <= b <= 0x39 || 0x41 <= b <= 0x5A || 0x61 <= b <= 0x7A }

  /** Hyphen, dot, underscore and tilde complete the unreserved characters. */
  predicate Unreserved(b: Byte) { Alphanumeric(b) || b == 0x2D || b == DOT || b == 0x5F || b == 0x7E }

  predicate SubDelim(b: Byte) { b == 0x21 || b == 0x24 || 0x26 <= b <= 0x2C || b == 0x3B || b == 0x3D }

  /** `pchar` without `pct-encoded`: unreserved, sub-delims, colon and at. */
  predicate Pchar(b: Byte) { Unreserved(b) || SubDelim(b) || b == 0x3A || b == 0x40 }

  method BuildDecodeTable() returns (table: array<bool>)
    ensures fresh(table) && table.Length == 256 && forall b: Byte :: table[b] == Pchar(b)
  {
    table := new bool[256](_ => false);
    var index := 0;
    while index < 256
      invariant 0 <= index <= 256
      invariant forall b: Byte :: b < index ==> table[b] == Pchar(b)
    {
      var unreserved := Alphanumeric(index) || index in [0x2D, 0x2E, 0x5F, 0x7E];
      var subDelims := index in [0x21, 0x24, 0x26, 0x27, 0x28, 0x29, 0x2A, 0x2B, 0x2C, 0x3B, 0x3D];
      table[index] := unreserved || subDelims || index == 0x3A || index == 0x40;
      index := index + 1;
    }
  }

  /** The byte an escape at `i` stands for, if there is a complete escape. */
  function EscapeAt(raw: Bytes, i: nat): Option<Byte>
    requires i < |raw|
  {
    if i + 2 < |raw| && HexValue(raw[i + 1]).Some? && HexValue(raw[i + 2]).Some?
    then Some(HexValue(raw[i + 1]).value * 16 + HexValue(raw[i + 2]).value)
    else None
  }

  /** Why an escaped byte may not be decoded. */
  function ByteFault(value: Byte): Option<Rejection> {
    if value == PERCENT then Some(DoubleEncoding)
    else if value == SLASH || value == QUESTION || value == HASH then Some(EncodedSeparator)
    else if value == BACKSLASH then Some(EncodedBackslash)
    else if value <= 0x1F || value == 0x7F then Some(EncodedControl)
    else if !Pchar(value) then Some(UnrepresentableEscape)
    else None
  }

  function EscapeFault(raw: Bytes, i: nat): Option<Rejection>
    requires i < |raw|
  {
    match EscapeAt(raw, i) case None => Some(InvalidEscape) case Some(value) => ByteFault(value)
  }

  predicate DotSegment(segment: Bytes) {
    (|segment| == 1 || |segment| == 2) && segment[0] == DOT && segment[|segment| - 1] == DOT
  }

  function CheckSegment(segment: Bytes, escaped: bool, structure: Structure): Option<Rejection> {
    if structure == Enforced && DotSegment(segment)
    then Some(if escaped then AmbiguousDotSegment else LiteralDotSegment)
    else None
  }

  // ----- the decoder alone -----

  /** The decoding pass from `i` on, `start` being where the current segment of `acc` begins. */
  function DecodeFrom(raw: Bytes, structure: Structure, i: nat, acc: Bytes, start: nat, escaped: bool): Result
    requires i <= |raw| && start <= |acc|
    decreases |raw| - i
  {
    if i == |raw| then
      match CheckSegment(acc[start..], escaped, structure) case Some(why) => Err(why) case None => Ok(acc)
    else if raw[i] == SLASH then
      match CheckSegment(acc[start..], escaped, structure)
      case Some(why) => Err(why)
      case None => DecodeFrom(raw, structure, i + 1, acc + [SLASH], |acc| + 1, false)
    else if raw[i] == BACKSLASH && structure == Enforced then Err(LiteralBackslash)
    else if raw[i] != PERCENT then DecodeFrom(raw, structure, i + 1, acc + [raw[i]], start, escaped)
    else
      match EscapeFault(raw, i)
      case Some(why) => Err(why)
      case None => DecodeFrom(raw, structure, i + 3, acc + [EscapeAt(raw, i).value], start, true)
  }

  function Decode(raw: Bytes, structure: Structure): Result { DecodeFrom(raw, structure, 0, [], 0, false) }

  // ----- the reference meaning -----

  /** Complete escapes replaced by the bytes they stand for. */
  function Unescaped(raw: Bytes): Bytes {
    if raw == [] then []
    else if raw[0] == PERCENT && EscapeAt(raw, 0).Some? then [EscapeAt(raw, 0).value] + Unescaped(raw[3..])
    else [raw[0]] + Unescaped(raw[1..])
  }

  function Split(raw: Bytes): (segments: seq<Bytes>)
    ensures |segments| > 0
  {
    if raw == [] then [[]]
    else if raw[0] == SLASH then [[]] + Split(raw[1..])
    else var rest := Split(raw[1..]); [[raw[0]] + rest[0]] + rest[1..]
  }

  /** Every percent sign starts an escape of a decodable byte. */
  predicate EscapesOk(raw: Bytes) { forall i :: 0 <= i < |raw| && raw[i] == PERCENT ==> EscapeFault(raw, i).None? }

  /** What the contract accepts. */
  predicate Acceptable(raw: Bytes, structure: Structure) {
    && EscapesOk(raw)
    && (structure == Enforced ==> BACKSLASH !in raw && forall s :: s in Split(raw) ==> !DotSegment(Unescaped(s)))
  }

  // ----- acceptance -----

  /** No segment is a dot segment, the first one continuing `head`. */
  predicate SegmentsOk(segments: seq<Bytes>, head: Bytes)
    requires |segments| > 0
  {
    && !DotSegment(head + Unescaped(segments[0]))
    && forall k :: 1 <= k < |segments| ==> !DotSegment(Unescaped(segments[k]))
  }

  /** `Acceptable` for the rest of a path whose current segment already reads `head`. */
  predicate RestAcceptable(rest: Bytes, structure: Structure, head: Bytes) {
    EscapesOk(rest) && (structure == Enforced ==> BACKSLASH !in rest && SegmentsOk(Split(rest), head))
  }

  lemma EscapesAfter(rest: Bytes, n: nat)
    requires n <= |rest| && forall i :: 0 <= i < n && rest[i] == PERCENT ==> EscapeFault(rest, i).None?
    ensures EscapesOk(rest) <==> EscapesOk(rest[n..])
  {
    forall i | 0 <= i < |rest| - n
      ensures EscapeFault(rest[n..], i) == EscapeFault(rest, i + n) && rest[n..][i] == rest[i + n]
    {
    }
    if EscapesOk(rest[n..]) {
      forall i | 0 <= i < |rest| && rest[i] == PERCENT ensures EscapeFault(rest, i).None? {
        if i >= n {
          assert rest[n..][i - n] == PERCENT;
        }
      }
    }
  }

  lemma MemberAfter(rest: Bytes, n: nat, b: Byte)
    requires n <= |rest| && b !in rest[..n]
    ensures b in rest <==> b in rest[n..]
  {
    assert rest == rest[..n] + rest[n..];
  }

  lemma {:induction false} SplitPast(rest: Bytes, n: nat)
    requires n <= |rest| && SLASH !in rest[..n]
    ensures Split(rest)[0] == rest[..n] + Split(rest[n..])[0] && Split(rest)[1..] == Split(rest[n..])[1..]
    decreases n
  {
    if n > 0 {
      assert rest[0] in rest[..n] && forall b :: b in rest[1..][..n - 1] ==> b in rest[..n];
      SplitPast(rest[1..], n - 1);
      assert rest[1..][n - 1..] == rest[n..];
      assert rest[..n] == [rest[0]] + rest[1..][..n - 1];
    }
  }

  lemma UnescapedLiteral(b: Byte, y: Bytes)
    requires b != PERCENT
    ensures Unescaped([b] + y) == [b] + Unescaped(y)
  {
    assert ([b] + y)[1..] == y;
  }

  lemma UnescapedEscape(escape: Bytes, y: Bytes)
    requires |escape| == 3 && escape[0] == PERCENT && EscapeAt(escape, 0).Some?
    ensures Unescaped(escape + y) == [EscapeAt(escape, 0).value] + Unescaped(y)
  {
    assert (escape + y)[3..] == y;
    assert EscapeAt(escape + y, 0) == EscapeAt(escape, 0);
  }

  /** A decoded byte moves from the first segment to what was read of it. */
  lemma SegmentsShift(all: seq<Bytes>, later: seq<Bytes>, head: Bytes, b: Byte)
    requires |all| > 0 && |later| > 0 && all[1..] == later[1..] && Unescaped(all[0]) == [b] + Unescaped(later[0])
    ensures SegmentsOk(all, head) <==> SegmentsOk(later, head + [b])
  {
    assert head + Unescaped(all[0]) == head + [b] + Unescaped(later[0]);
    assert |all[1..]| == |later[1..]|;
    forall k | 1 <= k < |all| ensures all[k] == later[k] {
      assert all[1..][k - 1] == later[1..][k - 1];
    }
  }

  lemma SlashStep(rest: Bytes, structure: Structure, head: Bytes)
    requires rest != [] && rest[0] == SLASH
    ensures RestAcceptable(rest, structure, head) <==>
            (structure == Enforced ==> !DotSegment(head)) && RestAcceptable(rest[1..], structure, [])
  {
    var (all, later) := (Split(rest), Split(rest[1..]));
    EscapesAfter(rest, 1);
    MemberAfter(rest, 1, BACKSLASH);
    assert head + Unescaped(all[0]) == head && [] + Unescaped(later[0]) == Unescaped(later[0]);
    assert forall k :: 0 <= k < |later| ==> all[k + 1] == later[k];
    assert forall k :: 1 <= k < |all| ==> all[k] == later[k - 1];
  }

  lemma LiteralStep(rest: Bytes, structure: Structure, head: Bytes)
    requires rest != [] && rest[0] != SLASH && rest[0] != PERCENT && (structure == Enforced ==> rest[0] != BACKSLASH)
    ensures RestAcceptable(rest, structure, head) <==> RestAcceptable(rest[1..], structure, head + [rest[0]])
  {
    EscapesAfter(rest, 1);
    if structure == Enforced {
      MemberAfter(rest, 1, BACKSLASH);
      SplitPast(rest, 1);
      assert rest[..1] == [rest[0]];
      UnescapedLiteral(rest[0], Split(rest[1..])[0]);
      SegmentsShift(Split(rest), Split(rest[1..]), head, rest[0]);
    }
  }

  lemma EscapeStep(rest: Bytes, structure: Structure, head: Bytes)
    requires rest != [] && rest[0] == PERCENT && EscapeFault(rest, 0).None?
    ensures RestAcceptable(rest, structure, head) <==>
            RestAcceptable(rest[3..], structure, head + [EscapeAt(rest, 0).value])
  {
    EscapesAfter(rest, 3);
    if structure == Enforced {
      MemberAfter(rest, 3, BACKSLASH);
      SplitPast(rest, 3);
      assert EscapeAt(rest[..3], 0) == EscapeAt(rest, 0);
      UnescapedEscape(rest[..3], Split(rest[3..])[0]);
      SegmentsShift(Split(rest), Split(rest[3..]), head, EscapeAt(rest, 0).value);
    }
  }

  lemma {:induction false} DecoderAccepts(raw: Bytes, structure: Structure, i: nat, acc: Bytes, start: nat,
                                          escaped: bool)
    requires i <= |raw| && start <= |acc|
    ensures DecodeFrom(raw, structure, i, acc, start, escaped).Ok? <==>
            RestAcceptable(raw[i..], structure, acc[start..])
    decreases |raw| - i
  {
    var (rest, head) := (raw[i..], acc[start..]);
    if i == |raw| {
      assert head + Unescaped(Split(rest)[0]) == head;
    } else if raw[i] == SLASH {
      DecoderAccepts(raw, structure, i + 1, acc + [SLASH], |acc| + 1, false);
      assert rest[1..] == raw[i + 1..] && (acc + [SLASH])[|acc| + 1..] == [];
      SlashStep(rest, structure, head);
    } else if raw[i] == BACKSLASH && structure == Enforced {
      assert rest[0] == BACKSLASH;
    } else if raw[i] != PERCENT {
      DecoderAccepts(raw, structure, i + 1, acc + [raw[i]], start, escaped);
      assert rest[1..] == raw[i + 1..] && (acc + [raw[i]])[start..] == head + [raw[i]];
      LiteralStep(rest, structure, head);
    } else {
      assert EscapeFault(rest, 0) == EscapeFault(raw, i) && EscapeAt(rest, 0) == EscapeAt(raw, i);
      if EscapeFault(raw, i).None? {
        var v := EscapeAt(raw, i).value;
        DecoderAccepts(raw, structure, i + 3, acc + [v], start, true);
        assert rest[3..] == raw[i + 3..] && (acc + [v])[start..] == head + [v];
        EscapeStep(rest, structure, head);
      }
    }
  }

  lemma OutputLiteral(acc: Bytes, raw: Bytes, i: nat)
    requires i < |raw| && raw[i] != PERCENT
    ensures acc + [raw[i]] + Unescaped(raw[i + 1..]) == acc + Unescaped(raw[i..])
  {
    assert raw[i..] == [raw[i]] + raw[i + 1..];
    UnescapedLiteral(raw[i], raw[i + 1..]);
  }

  lemma OutputEscape(acc: Bytes, raw: Bytes, i: nat)
    requires i < |raw| && raw[i] == PERCENT && EscapeAt(raw, i).Some?
    ensures acc + [EscapeAt(raw, i).value] + Unescaped(raw[i + 3..]) == acc + Unescaped(raw[i..])
  {
    assert raw[i..] == raw[i..i + 3] + raw[i + 3..] && EscapeAt(raw[i..i + 3], 0) == EscapeAt(raw, i);
    UnescapedEscape(raw[i..i + 3], raw[i + 3..]);
  }

  lemma {:induction false} DecoderOutput(raw: Bytes, structure: Structure, i: nat, acc: Bytes, start: nat,
                                         escaped: bool)
    requires i <= |raw| && start <= |acc| && DecodeFrom(raw, structure, i, acc, start, escaped).Ok?
    ensures DecodeFrom(raw, structure, i, acc, start, escaped).path == acc + Unescaped(raw[i..])
    decreases |raw| - i
  {
    if i == |raw| {
    } else if raw[i] == SLASH {
      DecoderOutput(raw, structure, i + 1, acc + [SLASH], |acc| + 1, false);
      OutputLiteral(acc, raw, i);
    } else if raw[i] != PERCENT {
      DecoderOutput(raw, structure, i + 1, acc + [raw[i]], start, escaped);
      OutputLiteral(acc, raw, i);
    } else {
      DecoderOutput(raw, structure, i + 3, acc + [EscapeAt(raw, i).value], start, true);
      OutputEscape(acc, raw, i);
    }
  }

  /** Accepted exactly by the contract, and decoded to what it stands for. */
  lemma AcceptsExactly(raw: Bytes, structure: Structure)
    ensures Decode(raw, structure).Ok? <==> Acceptable(raw, structure)
    ensures Decode(raw, structure).Ok? ==> Decode(raw, structure).path == Unescaped(raw)
  {
    var (segments, none: Bytes) := (Split(raw), []);
    DecoderAccepts(raw, structure, 0, none, 0, false);
    if Decode(raw, structure).Ok? {
      DecoderOutput(raw, structure, 0, none, 0, false);
    }
    assert raw[0..] == raw && none[0..] == none && none + Unescaped(segments[0]) == Unescaped(segments[0])
      && none + Unescaped(raw) == Unescaped(raw);
    if SegmentsOk(segments, none) {
      forall s | s in segments ensures !DotSegment(Unescaped(s)) {
        var k :| 0 <= k < |segments| && segments[k] == s;
      }
    }
  }

  // ----- the canonical form -----

  lemma {:induction false} UnescapedHasNoEscape(raw: Bytes)
    requires EscapesOk(raw)
    ensures PERCENT !in Unescaped(raw) && (BACKSLASH !in raw ==> BACKSLASH !in Unescaped(raw))
  {
    if raw != [] {
      var n := if raw[0] == PERCENT then 3 else 1;
      assert raw[0] == PERCENT ==> EscapeFault(raw, 0).None?;
      EscapesAfter(raw, n);
      UnescapedHasNoEscape(raw[n..]);
      assert forall x :: x in raw[n..] ==> x in raw;
    }
  }

  /** An escape shortens the path. */
  lemma {:induction false} UnescapedLength(raw: Bytes)
    ensures |Unescaped(raw)| <= |raw| && (PERCENT in raw && EscapesOk(raw) ==> |Unescaped(raw)| < |raw|)
  {
    if raw != [] {
      var n := if raw[0] == PERCENT && EscapeAt(raw, 0).Some? then 3 else 1;
      UnescapedLength(raw[n..]);
      if EscapesOk(raw) && raw[0] != PERCENT {
        EscapesAfter(raw, 1);
        MemberAfter(raw, 1, PERCENT);
      } else {
        assert EscapesOk(raw) ==> EscapeFault(raw, 0).None?;
      }
    }
  }

  lemma {:induction false} NothingToUnescape(raw: Bytes)
    requires PERCENT !in raw
    ensures Unescaped(raw) == raw
  {
    if raw != [] {
      assert raw == [raw[0]] + raw[1..];
      NothingToUnescape(raw[1..]);
    }
  }

  function AllUnescaped(segments: seq<Bytes>): seq<Bytes> {
    seq(|segments|, k requires 0 <= k < |segments| => Unescaped(segments[k]))
  }

  lemma SplitAhead(b: Byte, y: Bytes)
    requires b != SLASH
    ensures Split([b] + y)[0] == [b] + Split(y)[0] && Split([b] + y)[1..] == Split(y)[1..]
  {
    assert ([b] + y)[1..] == y;
  }

  /** Decoding neither adds nor removes a segment. */
  lemma {:induction false} SegmentsOneForOne(raw: Bytes)
    requires EscapesOk(raw)
    ensures Split(Unescaped(raw)) == AllUnescaped(Split(raw))
  {
    if raw == [] {
    } else if raw[0] == SLASH {
      EscapesAfter(raw, 1);
      SegmentsOneForOne(raw[1..]);
      SegmentClosed(raw);
    } else {
      assert raw[0] == PERCENT ==> EscapeFault(raw, 0).None?;
      var n := if raw[0] == PERCENT then 3 else 1;
      EscapesAfter(raw, n);
      SegmentsOneForOne(raw[n..]);
      SegmentAhead(raw, n);
    }
  }

  lemma SplitSlash(y: Bytes)
    ensures Split([SLASH] + y) == [[]] + Split(y)
  {
    assert ([SLASH] + y)[1..] == y;
  }

  lemma AllUnescapedAhead(later: seq<Bytes>)
    ensures AllUnescaped([[]] + later) == [[]] + AllUnescaped(later)
  {
  }

  lemma SegmentClosed(raw: Bytes)
    requires raw != [] && raw[0] == SLASH && Split(Unescaped(raw[1..])) == AllUnescaped(Split(raw[1..]))
    ensures Split(Unescaped(raw)) == AllUnescaped(Split(raw))
  {
    SplitSlash(Unescaped(raw[1..]));
    AllUnescapedAhead(Split(raw[1..]));
  }

  lemma SegmentAhead(raw: Bytes, n: nat)
    requires raw != [] && raw[0] != SLASH && n == (if raw[0] == PERCENT then 3 else 1)
    requires raw[0] == PERCENT ==> EscapeFault(raw, 0).None?
    requires Split(Unescaped(raw[n..])) == AllUnescaped(Split(raw[n..]))
    ensures Split(Unescaped(raw)) == AllUnescaped(Split(raw))
  {
    SplitPast(raw, n);
    var b := if raw[0] == PERCENT then EscapeAt(raw, 0).value else raw[0];
    SplitAhead(b, Unescaped(raw[n..]));
    if raw[0] == PERCENT {
      assert EscapeAt(raw[..3], 0) == EscapeAt(raw, 0);
      UnescapedEscape(raw[..3], Split(raw[3..])[0]);
    } else {
      assert raw[..1] == [raw[0]];
      UnescapedLiteral(raw[0], Split(raw[1..])[0]);
    }
    SameSegments(Split(raw), Split(raw[n..]), Split(Unescaped(raw)), Split(Unescaped(raw[n..])), b);
  }

  lemma SameSegments(all: seq<Bytes>, later: seq<Bytes>, out: seq<Bytes>, outLater: seq<Bytes>, b: Byte)
    requires |all| > 0 && |later| > 0 && |out| > 0 && |outLater| > 0
    requires all[1..] == later[1..] && out[1..] == outLater[1..] && outLater == AllUnescaped(later)
    requires out[0] == [b] + outLater[0] && Unescaped(all[0]) == [b] + Unescaped(later[0])
    ensures out == AllUnescaped(all)
  {
    assert |all[1..]| == |later[1..]| && |out[1..]| == |outLater[1..]|;
    forall k | 0 <= k < |out| ensures out[k] == Unescaped(all[k]) {
      if k > 0 {
        assert out[k] == out[1..][k - 1] == outLater[k] && all[k] == all[1..][k - 1] == later[k];
      }
    }
  }

  /** Canonicalizing a canonical path returns it unchanged. */
  lemma Idempotent(raw: Bytes, structure: Structure)
    requires Decode(raw, structure).Ok?
    ensures Decode(Decode(raw, structure).path, structure) == Decode(raw, structure)
  {
    AcceptsExactly(raw, structure);
    var out := Unescaped(raw);
    UnescapedHasNoEscape(raw);
    NothingToUnescape(out);
    SegmentsOneForOne(raw);
    forall s | s in Split(out) && structure == Enforced ensures !DotSegment(Unescaped(s)) {
      var k :| 0 <= k < |Split(out)| && Split(out)[k] == s;
      assert s == Unescaped(Split(raw)[k]);
      SegmentWithoutEscape(out, k);
      NothingToUnescape(s);
    }
    AcceptsExactly(out, structure);
  }

  lemma {:induction false} SegmentWithoutEscape(raw: Bytes, k: nat)
    requires PERCENT !in raw && k < |Split(raw)|
    ensures PERCENT !in Split(raw)[k]
  {
    if raw != [] {
      assert raw == [raw[0]] + raw[1..];
      if k < |Split(raw[1..])| {
        SegmentWithoutEscape(raw[1..], k);
      }
      if k > 0 && k - 1 < |Split(raw[1..])| {
        SegmentWithoutEscape(raw[1..], k - 1);
      }
    }
  }

  // ----- the first rejection -----

  function SegmentStart(raw: Bytes, i: nat): (start: nat)
    requires i <= |raw|
    ensures start <= i
  {
    if i == 0 || raw[i - 1] == SLASH then i else SegmentStart(raw, i - 1)
  }

  /** What is wrong at one position of the target, seen on its own; the end closes the last segment. */
  function FaultAt(raw: Bytes, structure: Structure, i: nat): Option<Rejection>
    requires i <= |raw|
  {
    if i == |raw| || raw[i] == SLASH then
      var segment := raw[SegmentStart(raw, i)..i];
      CheckSegment(Unescaped(segment), PERCENT in segment, structure)
    else if raw[i] == BACKSLASH && structure == Enforced then Some(LiteralBackslash)
    else if raw[i] == PERCENT then EscapeFault(raw, i)
    else None
  }

  predicate Clean(raw: Bytes, structure: Structure, i: nat, j: nat)
    requires j <= |raw| + 1
  {
    forall k :: i <= k < j ==> FaultAt(raw, structure, k).None?
  }

  predicate Complete(raw: Bytes) { forall i :: 0 <= i < |raw| && raw[i] == PERCENT ==> EscapeAt(raw, i).Some? }

  lemma CompleteAfter(x: Bytes, n: nat)
    requires Complete(x) && n <= |x|
    ensures Complete(x[n..])
  {
    assert forall i :: 0 <= i < |x| - n ==> EscapeAt(x[n..], i) == EscapeAt(x, i + n);
  }

  lemma CutAt(x: Bytes, n: nat, y: Bytes)
    requires n <= |x|
    ensures x == x[..n] + x[n..] && x + y == x[..n] + (x[n..] + y)
  {
  }

  lemma Regrouped(out: Bytes, ux: Bytes, uy: Bytes)
    ensures out + (ux + uy) == out + ux + uy
  {
  }

  /** A literal byte or a complete escape, and what it decodes to. */
  predicate IsToken(token: Bytes, out: Bytes) {
    || (|token| == 1 && token[0] != PERCENT && out == token)
    || (|token| == 3 && token[0] == PERCENT && EscapeAt(token, 0).Some? && out == [EscapeAt(token, 0).value])
  }

  /** What one literal byte, or one escape, in front adds. */
  lemma UnescapedToken(token: Bytes, out: Bytes, y: Bytes)
    requires IsToken(token, out)
    ensures Unescaped(token + y) == out + Unescaped(y)
  {
    if token[0] == PERCENT {
      UnescapedEscape(token, y);
    } else {
      assert token == [token[0]];
      UnescapedLiteral(token[0], y);
    }
  }

  lemma AppendToken(token: Bytes, out: Bytes, x: Bytes, y: Bytes)
    requires IsToken(token, out) && Unescaped(x + y) == Unescaped(x) + Unescaped(y)
    ensures Unescaped(token + (x + y)) == Unescaped(token + x) + Unescaped(y)
  {
    UnescapedToken(token, out, x + y);
    UnescapedToken(token, out, x);
    Regrouped(out, Unescaped(x), Unescaped(y));
  }

  lemma FirstToken(x: Bytes) returns (n: nat, out: Bytes)
    requires x != [] && Complete(x)
    ensures 0 < n <= |x| && IsToken(x[..n], out)
  {
    if x[0] == PERCENT {
      assert EscapeAt(x, 0).Some? && EscapeAt(x[..3], 0) == EscapeAt(x, 0);
      n, out := 3, [EscapeAt(x, 0).value];
    } else {
      n, out := 1, x[..1];
    }
  }

  lemma {:induction false} UnescapedAppend(x: Bytes, y: Bytes)
    requires Complete(x)
    ensures Unescaped(x + y) == Unescaped(x) + Unescaped(y)
  {
    if x == [] {
      assert x + y == y;
    } else {
      var n, out := FirstToken(x);
      CompleteAfter(x, n);
      UnescapedAppend(x[n..], y);
      AppendToken(x[..n], out, x[n..], y);
      CutAt(x, n, y);
    }
  }

  /** What has been read of the current segment, and how the decoder remembers it. */
  ghost predicate Reading(raw: Bytes, i: nat, acc: Bytes, start: nat, escaped: bool) {
    && i <= |raw| && start <= |acc|
    && var segment := raw[SegmentStart(raw, i)..i];
       Complete(segment) && acc[start..] == Unescaped(segment) && escaped == (PERCENT in segment)
  }

  lemma CompleteAppend(x: Bytes, y: Bytes)
    requires Complete(x) && Complete(y)
    ensures Complete(x + y)
  {
    forall i | 0 <= i < |x + y| && (x + y)[i] == PERCENT ensures EscapeAt(x + y, i).Some? {
      if i < |x| {
        assert EscapeAt(x + y, i) == EscapeAt(x, i);
      } else {
        assert EscapeAt(x + y, i) == EscapeAt(y, i - |x|);
      }
    }
  }

  /** Reading on by one literal byte or one escape, `token`. */
  lemma ReadOn(raw: Bytes, i: nat, n: nat, acc: Bytes, start: nat, escaped: bool, b: Byte)
    requires Reading(raw, i, acc, start, escaped) && i + n <= |raw| && SLASH !in raw[i..i + n] && n > 0
    requires Complete(raw[i..i + n]) && Unescaped(raw[i..i + n]) == [b]
    ensures Reading(raw, i + n, acc + [b], start, escaped || PERCENT in raw[i..i + n])
  {
    var from := SegmentStart(raw, i);
    forall k | i <= k < i + n ensures raw[k] != SLASH {
      assert raw[k] == raw[i..i + n][k - i];
    }
    StartStays(raw, i, n);
    assert raw[from..i + n] == raw[from..i] + raw[i..i + n];
    CompleteAppend(raw[from..i], raw[i..i + n]);
    UnescapedAppend(raw[from..i], raw[i..i + n]);
    assert (acc + [b])[start..] == acc[start..] + [b];
  }

  lemma {:induction false} StartStays(raw: Bytes, i: nat, n: nat)
    requires i + n <= |raw| && forall k :: i <= k < i + n ==> raw[k] != SLASH
    ensures SegmentStart(raw, i + n) == SegmentStart(raw, i)
    decreases n
  {
    if n > 0 {
      StartStays(raw, i, n - 1);
    }
  }

  lemma EscapeToken(raw: Bytes, i: nat)
    requires i < |raw| && raw[i] == PERCENT && EscapeAt(raw, i).Some?
    ensures SLASH !in raw[i..i + 3] && Complete(raw[i..i + 3]) && Unescaped(raw[i..i + 3]) == [EscapeAt(raw, i).value]
    ensures PERCENT in raw[i..i + 3]
  {
    var token := raw[i..i + 3];
    assert token == [raw[i], raw[i + 1], raw[i + 2]] && EscapeAt(token, 0) == EscapeAt(raw, i);
    assert token + [] == token;
    UnescapedEscape(token, []);
  }

  lemma LiteralToken(raw: Bytes, i: nat)
    requires i < |raw| && raw[i] != PERCENT && raw[i] != SLASH
    ensures SLASH !in raw[i..i + 1] && Complete(raw[i..i + 1]) && Unescaped(raw[i..i + 1]) == [raw[i]]
            && PERCENT !in raw[i..i + 1]
  {
    var token := raw[i..i + 1];
    assert token == [raw[i]] && token[1..] == [];
  }

  lemma ReadEscape(raw: Bytes, i: nat, acc: Bytes, start: nat, escaped: bool)
    requires Reading(raw, i, acc, start, escaped) && i < |raw| && raw[i] == PERCENT && EscapeAt(raw, i).Some?
    ensures Reading(raw, i + 3, acc + [EscapeAt(raw, i).value], start, true)
  {
    EscapeToken(raw, i);
    ReadOn(raw, i, 3, acc, start, escaped, EscapeAt(raw, i).value);
  }

  lemma ReadLiteral(raw: Bytes, i: nat, acc: Bytes, start: nat, escaped: bool)
    requires Reading(raw, i, acc, start, escaped) && i < |raw| && raw[i] != PERCENT && raw[i] != SLASH
    ensures Reading(raw, i + 1, acc + [raw[i]], start, escaped)
  {
    LiteralToken(raw, i);
    ReadOn(raw, i, 1, acc, start, escaped, raw[i]);
  }

  lemma NewSegment(raw: Bytes, i: nat, acc: Bytes)
    requires i < |raw| && raw[i] == SLASH
    ensures Reading(raw, i + 1, acc + [SLASH], |acc| + 1, false)
  {
    assert (acc + [SLASH])[|acc| + 1..] == [] && raw[i + 1..i + 1] == [];
  }

  /** Nothing is wrong inside a token that is itself all right. */
  lemma CleanToken(raw: Bytes, structure: Structure, i: nat, n: nat, j: nat)
    requires 0 < n && i + n <= j <= |raw| + 1 && FaultAt(raw, structure, i).None? && Clean(raw, structure, i + n, j)
    requires n == 1 || (n == 3 && i < |raw| && raw[i] == PERCENT && EscapeAt(raw, i).Some?)
    ensures Clean(raw, structure, i, j)
  {
    if n == 3 {
      assert FaultAt(raw, structure, i + 1).None? && FaultAt(raw, structure, i + 2).None?;
    }
  }

  /** The decoder and the reference see the same fault at a position. */
  lemma SeesFault(raw: Bytes, structure: Structure, i: nat, acc: Bytes, start: nat, escaped: bool, why: Rejection)
    requires Reading(raw, i, acc, start, escaped) && FaultAt(raw, structure, i) == Some(why)
    ensures DecodeFrom(raw, structure, i, acc, start, escaped) == Err(why)
  {
  }

  function TokenWidth(raw: Bytes, i: nat): nat
    requires i < |raw|
  {
    if raw[i] == PERCENT then 3 else 1
  }

  // What the decoder does at a position without a fault.

  lemma PassesSlash(raw: Bytes, structure: Structure, i: nat, acc: Bytes, start: nat, escaped: bool)
    requires Reading(raw, i, acc, start, escaped) && i < |raw| && FaultAt(raw, structure, i) == None && raw[i] == SLASH
    ensures DecodeFrom(raw, structure, i, acc, start, escaped)
            == DecodeFrom(raw, structure, i + 1, acc + [SLASH], |acc| + 1, false)
  {
  }

  lemma PassesEscape(raw: Bytes, structure: Structure, i: nat, acc: Bytes, start: nat, escaped: bool)
    requires i < |raw| && start <= |acc| && FaultAt(raw, structure, i) == None && raw[i] == PERCENT
    ensures EscapeAt(raw, i).Some?
    ensures DecodeFrom(raw, structure, i, acc, start, escaped)
            == DecodeFrom(raw, structure, i + 3, acc + [EscapeAt(raw, i).value], start, true)
  {
  }

  lemma PassesLiteral(raw: Bytes, structure: Structure, i: nat, acc: Bytes, start: nat, escaped: bool)
    requires i < |raw| && start <= |acc| && FaultAt(raw, structure, i) == None && raw[i] != SLASH && raw[i] != PERCENT
    ensures DecodeFrom(raw, structure, i, acc, start, escaped)
            == DecodeFrom(raw, structure, i + 1, acc + [raw[i]], start, escaped)
  {
  }

  /** A position without a fault is read, and the decoder goes on past it. */
  lemma ReadsToken(raw: Bytes, structure: Structure, i: nat, acc: Bytes, start: nat, escaped: bool)
    returns (acc': Bytes, start': nat, escaped': bool)
    requires Reading(raw, i, acc, start, escaped) && FaultAt(raw, structure, i) == None && i < |raw|
    ensures i + TokenWidth(raw, i) <= |raw| && (raw[i] == PERCENT ==> EscapeAt(raw, i).Some?)
    ensures Reading(raw, i + TokenWidth(raw, i), acc', start', escaped')
    ensures DecodeFrom(raw, structure, i, acc, start, escaped)
            == DecodeFrom(raw, structure, i + TokenWidth(raw, i), acc', start', escaped')
  {
    if raw[i] == SLASH {
      PassesSlash(raw, structure, i, acc, start, escaped);
      NewSegment(raw, i, acc);
      acc', start', escaped' := acc + [SLASH], |acc| + 1, false;
    } else if raw[i] == PERCENT {
      PassesEscape(raw, structure, i, acc, start, escaped);
      ReadEscape(raw, i, acc, start, escaped);
      acc', start', escaped' := acc + [EscapeAt(raw, i).value], start, true;
    } else {
      PassesLiteral(raw, structure, i, acc, start, escaped);
      ReadLiteral(raw, i, acc, start, escaped);
      acc', start', escaped' := acc + [raw[i]], start, escaped;
    }
  }

  lemma ReadsEnd(raw: Bytes, structure: Structure, acc: Bytes, start: nat, escaped: bool)
    requires Reading(raw, |raw|, acc, start, escaped) && FaultAt(raw, structure, |raw|) == None
    ensures DecodeFrom(raw, structure, |raw|, acc, start, escaped) == Ok(acc)
  {
  }

  /** The result is the verdict on the first fault from `i` on, which is at `j`, or there is none. */
  predicate Explains(raw: Bytes, structure: Structure, r: Result, i: nat, j: nat) {
    && i <= j <= |raw| + 1 && Clean(raw, structure, i, j)
    && (r.Ok? ==> j == |raw| + 1)
    && (r.Err? ==> j <= |raw| && FaultAt(raw, structure, j) == Some(r.why))
  }

  lemma {:induction false} DecoderFindsFirst(raw: Bytes, structure: Structure, i: nat, acc: Bytes, start: nat,
                                             escaped: bool, r: Result)
    returns (j: nat)
    requires Reading(raw, i, acc, start, escaped) && r == DecodeFrom(raw, structure, i, acc, start, escaped)
    ensures Explains(raw, structure, r, i, j)
    decreases |raw| - i
  {
    if FaultAt(raw, structure, i).Some? {
      SeesFault(raw, structure, i, acc, start, escaped, FaultAt(raw, structure, i).value);
      return i;
    }
    if i == |raw| {
      ReadsEnd(raw, structure, acc, start, escaped);
      return i + 1;
    }
    var acc', start', escaped' := ReadsToken(raw, structure, i, acc, start, escaped);
    j := DecoderFindsFirst(raw, structure, i + TokenWidth(raw, i), acc', start', escaped', r);
    CleanToken(raw, structure, i, TokenWidth(raw, i), j);
  }

  /** A rejection names the first fault of the target, and no target with a fault is accepted. */
  lemma RejectsFirstFault(raw: Bytes, structure: Structure) returns (j: nat)
    ensures Explains(raw, structure, Decode(raw, structure), 0, j)
  {
    var none: Bytes := [];
    assert raw[0..0] == none && none[0..] == none;
    j := DecoderFindsFirst(raw, structure, 0, none, 0, false, Decode(raw, structure));
  }

  // ----- text -----

  predicate Continuation(b: Byte) { 0x80 <= b <= 0xBF }

  /** Length of the well-formed UTF-8 character the text starts with, zero if there is none. */
  function CharWidth(text: Bytes): (n: nat)
    ensures n <= |text|
  {
    if text == [] then 0
    else
      var b := text[0];
      if b <= 0x7F then 1
      else if 0xC2 <= b <= 0xDF && |text| >= 2 && Continuation(text[1]) then 2
      else if 0xE0 <= b <= 0xEF && |text| >= 3 && Continuation(text[1]) && Continuation(text[2])
              && (b == 0xE0 ==> text[1] >= 0xA0) && (b == 0xED ==> text[1] <= 0x9F) then 3
      else if 0xF0 <= b <= 0xF4 && |text| >= 4 && Continuation(text[1]) && Continuation(text[2])
        && Continuation(text[3])
              && (b == 0xF0 ==> text[1] >= 0x90) && (b == 0xF4 ==> text[1] <= 0x8F) then 4
      else 0
  }

  predicate ValidUtf8(text: Bytes) {
    text == [] || (CharWidth(text) > 0 && ValidUtf8(text[CharWidth(text)..]))
  }

  lemma {:induction false} LiteralsCopied(raw: Bytes, n: nat)
    requires n <= |raw| && forall i :: 0 <= i < n ==> raw[i] != PERCENT
    ensures Unescaped(raw) == raw[..n] + Unescaped(raw[n..])
    decreases n
  {
    if n > 0 {
      LiteralsCopied(raw[1..], n - 1);
      assert raw[1..][n - 1..] == raw[n..] && raw[..n] == [raw[0]] + raw[1..][..n - 1];
    }
  }

  lemma CharAhead(x: Bytes, y: Bytes)
    requires x != [] && CharWidth(x) == |x| && ValidUtf8(y)
    ensures ValidUtf8(x + y)
  {
    assert CharWidth(x + y) == |x| && (x + y)[|x|..] == y;
  }

  lemma AsciiAhead(text: Bytes, n: nat)
    requires ValidUtf8(text) && n <= |text| && forall i :: 0 <= i < n ==> text[i] <= 0x7F
    ensures ValidUtf8(text[n..])
    decreases n
  {
    if n > 0 {
      AsciiAhead(text[1..], n - 1);
      assert text[1..][n - 1..] == text[n..];
    } else {
      assert text[0..] == text;
    }
  }

  /** Valid UTF-8 decodes to valid UTF-8. */
  lemma {:induction false} UnescapedIsText(raw: Bytes)
    requires ValidUtf8(raw) && EscapesOk(raw)
    ensures ValidUtf8(Unescaped(raw))
  {
    if raw == [] {
    } else if raw[0] == PERCENT {
      assert EscapeFault(raw, 0).None?;
      AsciiAhead(raw, 3);
      EscapesAfter(raw, 3);
      UnescapedIsText(raw[3..]);
      CharAhead([EscapeAt(raw, 0).value], Unescaped(raw[3..]));
    } else {
      var n := CharWidth(raw);
      EscapesAfter(raw, n);
      UnescapedIsText(raw[n..]);
      LiteralsCopied(raw, n);
      assert CharWidth(raw[..n]) == n;
      CharAhead(raw[..n], Unescaped(raw[n..]));
    }
  }

  // ----- the two passes -----

  datatype Prescan = AlreadyCanonical | NeedsDecoding | Refused(why: Rejection)

  /** The allocation-free scan: a verdict the decoder would give too, or a percent sign was met. */
  method PrescanPath(raw: Bytes, structure: Structure) returns (verdict: Prescan)
    ensures match verdict
            case AlreadyCanonical => PERCENT !in raw && Decode(raw, structure) == Ok(raw)
            case NeedsDecoding => PERCENT in raw
            case Refused(why) => Decode(raw, structure) == Err(why)
  {
    var enforced := structure == Enforced;
    var segmentStart, index := 0, 0;
    ghost var start := 0;
    while index < |raw|
      invariant 0 <= index <= |raw| && start <= index && (enforced ==> segmentStart == start)
      invariant PERCENT !in raw[..index]
      invariant Decode(raw, structure) == DecodeFrom(raw, structure, index, raw[..index], start, false)
    {
      assert raw[..index + 1] == raw[..index] + [raw[index]];
      if raw[index] == PERCENT {
        return NeedsDecoding;
      } else if raw[index] == BACKSLASH && enforced {
        return Refused(LiteralBackslash);
      } else if raw[index] == SLASH {
        assert raw[..index][start..] == raw[start..index];
        if enforced {
          if DotSegment(raw[segmentStart..index]) {
            return Refused(LiteralDotSegment);
          }
          segmentStart := index + 1;
        }
        start := index + 1;
      }
      index := index + 1;
    }
    assert raw[..index] == raw;
    if enforced && DotSegment(raw[segmentStart..]) {
      return Refused(LiteralDotSegment);
    }
    return AlreadyCanonical;
  }

  /** The decoding pass. */
  method DecodePath(raw: Bytes, structure: Structure) returns (r: Result)
    ensures r == Decode(raw, structure)
  {
    var table := BuildDecodeTable();
    var enforced := structure == Enforced;
    var canonical: Bytes := [];
    var segmentStart, segmentHasEscape, index := 0, false, 0;
    while index < |raw|
      invariant 0 <= index <= |raw| && 0 <= segmentStart <= |canonical|
      invariant Decode(raw, structure) == DecodeFrom(raw, structure, index, canonical, segmentStart, segmentHasEscape)
    {
      var byte := raw[index];
      if byte == SLASH {
        var fault := CheckSegment(canonical[segmentStart..], segmentHasEscape, structure);
        if fault.Some? {
          return Err(fault.value);
        }
        canonical := canonical + [SLASH];
        segmentStart, segmentHasEscape := |canonical|, false;
        index := index + 1;
      } else if byte == BACKSLASH && enforced {
        return Err(LiteralBackslash);
      } else if byte != PERCENT {
        canonical := canonical + [byte];
        index := index + 1;
      } else {
        var escape := EscapeAt(raw, index);
        if escape.None? {
          return Err(InvalidEscape);
        }
        var value := escape.value;
        if value == PERCENT {
          return Err(DoubleEncoding);
        } else if value == SLASH || value == QUESTION || value == HASH {
          return Err(EncodedSeparator);
        } else if value == BACKSLASH {
          return Err(EncodedBackslash);
        } else if value <= 0x1F || value == 0x7F {
          return Err(EncodedControl);
        } else if !table[value] {
          return Err(UnrepresentableEscape);
        }
        canonical := canonical + [value];
        segmentHasEscape := true;
        index := index + 3;
      }
    }
    var fault := CheckSegment(canonical[segmentStart..], segmentHasEscape, structure);
    r := if fault.Some? then Err(fault.value) else Ok(canonical);
  }

  datatype Canonical = Borrowed(path: Bytes) | Owned(path: Bytes) | Rejected(why: Rejection)

  /** Scan, then decode if need be: the decoder's verdict, borrowed exactly when there was no escape. */
  method Canonicalize(raw: Bytes, structure: Structure) returns (c: Canonical)
    requires ValidUtf8(raw)
    ensures match Decode(raw, structure)
            case Err(why) => c == Rejected(why)
            case Ok(path) => c == (if PERCENT in raw then Owned(path) else Borrowed(raw)) && ValidUtf8(path)
  {
    var scan := PrescanPath(raw, structure);
    if scan.Refused? {
      return Rejected(scan.why);
    } else if scan.AlreadyCanonical? {
      return Borrowed(raw);
    }
    var r := DecodePath(raw, structure);
    if r.Err? {
      return Rejected(r.why);
    }
    AcceptsExactly(raw, structure);
    UnescapedIsText(raw);
    c := if ValidUtf8(r.path) then Owned(r.path) else Rejected(UnrepresentableEscape);
  }

  function ReasonText(why: Rejection): string {
    match why
    case InvalidEscape => "invalid_escape"
    case DoubleEncoding => "double_encoding"
    case EncodedSeparator => "encoded_separator"
    case EncodedBackslash => "encoded_backslash"
    case LiteralBackslash => "literal_backslash"
    case EncodedControl => "encoded_control"
    case UnrepresentableEscape => "unrepresentable_escape"
    case AmbiguousDotSegment => "ambiguous_dot_segment"
    case LiteralDotSegment => "literal_dot_segment"
  }

  function ReasonFor(c: Canonical): Option<string> {
    match c
    case Borrowed(_) => None
    case Owned(_) => Some("percent-escapes that canonicalize to a different path")
    case Rejected(why) => Some(ReasonText(why))
  }

  /** Configuration admission: no reason is given exactly for paths that are their own canonical form. */
  method NonCanonicalReason(path: Bytes, structure: Structure) returns (reason: Option<string>)
    requires ValidUtf8(path)
    ensures reason.None? <==> Decode(path, structure) == Ok(path)
    ensures reason.None? <==> Acceptable(path, structure) && PERCENT !in path
    ensures Decode(path, structure).Err? ==> reason == Some(ReasonText(Decode(path, structure).why))
  {
    var c := Canonicalize(path, structure);
    reason := ReasonFor(c);
    AcceptsExactly(path, structure);
    UnescapedLength(path);
    if PERCENT !in path {
      NothingToUnescape(path);
    }
  }
}
