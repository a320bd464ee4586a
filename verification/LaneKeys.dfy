/**
 The flat keys of destination lanes: variable-length parts carry their length, so no value can forge another lane's key.

 Text is its bytes; lengths and ports are written in decimal.
 */
module LaneKeys {
  import opened Basics

  const COLON: Byte := 0x3A
  const BAR: Byte := 0x7C

  // ----- decimal numbers -----

  function Digit(d: nat): Byte
    requires d < 10
  {
    0x30 + d
  }

  predicate IsDigit(b: Byte) { 0x30 <= b <= 0x39 }

  function Decimal(n: nat): (text: Bytes)
    ensures |text| > 0 && forall i :: 0 <= i < |text| ==> IsDigit(text[i])
  {
    if n < 10 then [Digit(n)] else Decimal(n / 10) + [Digit(n % 10)]
  }

  lemma DecimalInjective(n: nat, m: nat)
    requires Decimal(n) == Decimal(m)
    ensures n == m
  {
    DecimalValue(n);
    DecimalValue(m);
  }

  function ValueOf(text: Bytes): int {
    if text == [] then 0 else ValueOf(text[..|text| - 1]) * 10 + (text[|text| - 1] as int - 0x30)
  }

  lemma {:induction false} DecimalValue(n: nat)
    ensures ValueOf(Decimal(n)) == n
  {
    var text := Decimal(n);
    if n < 10 {
      assert text[..0] == [];
    } else {
      assert text[..|text| - 1] == Decimal(n / 10);
      DecimalValue(n / 10);
    }
  }

  lemma IndexBefore(a: Bytes, stop: Byte, x: Bytes, i: nat)
    requires i < |a|
    ensures (a + [stop] + x)[i] == a[i]
  {
  }

  lemma IndexAt(a: Bytes, stop: Byte, x: Bytes)
    ensures (a + [stop] + x)[|a|] == stop
  {
  }

  /** A number followed by anything but a digit can be read back, whatever comes after. */
  lemma DecimalThen(n: nat, m: nat, stop: Byte, x: Bytes, y: Bytes)
    requires !IsDigit(stop) && Decimal(n) + [stop] + x == Decimal(m) + [stop] + y
    ensures n == m && x == y
  {
    var (a, b) := (Decimal(n), Decimal(m));
    if |a| < |b| {
      IndexBefore(b, stop, y, |a|);
      IndexAt(a, stop, x);
    } else if |b| < |a| {
      IndexBefore(a, stop, x, |b|);
      IndexAt(b, stop, y);
    } else {
      assert a == (a + [stop] + x)[..|a|] && b == (b + [stop] + y)[..|b|];
      DecimalInjective(n, m);
      assert x == (a + [stop] + x)[|a| + 1..] && y == (b + [stop] + y)[|b| + 1..];
    }
  }

  // ----- length-prefixed parts -----

  function Prefixed(tag: Bytes, value: Bytes): Bytes { tag + Decimal(|value|) + [COLON] + value }

  lemma CancelFront(tag: Bytes, x: Bytes, y: Bytes)
    requires tag + x == tag + y
    ensures x == y
  {
    assert x == (tag + x)[|tag|..] && y == (tag + y)[|tag|..];
  }

  lemma Assoc(a: Bytes, b: Bytes, c: Bytes)
    ensures a + b + c == a + (b + c)
  {
  }

  /** Two texts starting with a prefixed part agree on the part and on the rest. */
  lemma PrefixedThen(tag: Bytes, v: Bytes, w: Bytes, x: Bytes, y: Bytes)
    requires Prefixed(tag, v) + x == Prefixed(tag, w) + y
    ensures v == w && x == y
  {
    assert Prefixed(tag, v) + x == tag + (Decimal(|v|) + [COLON] + (v + x));
    assert Prefixed(tag, w) + y == tag + (Decimal(|w|) + [COLON] + (w + y));
    CancelFront(tag, Decimal(|v|) + [COLON] + (v + x), Decimal(|w|) + [COLON] + (w + y));
    DecimalThen(|v|, |w|, COLON, v + x, w + y);
    assert v == (v + x)[..|v|] && w == (w + y)[..|w|];
    CancelFront(v, x, y);
  }

  const N: Byte := 0x6E
  const S: Byte := 0x73
  const D: Byte := 0x64
  const TAG_NS: Bytes := [0x6E, 0x73]
  const TAG_ID: Bytes := [0x69, 0x64]
  const TAG_UID: Bytes := [0x75, 0x69, 0x64]

  /** The last part: a named subset, or the lane without one. */
  function SubsetPart(subset: Option<Bytes>): Bytes {
    match subset case Some(name) => Prefixed([S], name) case None => [N]
  }

  function FirstByte(text: Bytes): Byte { if text == [] then 0 else text[0] }

  lemma SubsetStart(a: Option<Bytes>, x: Bytes)
    ensures FirstByte(SubsetPart(a) + x) == if a.Some? then S else N
  {
  }

  lemma SubsetThen(a: Option<Bytes>, b: Option<Bytes>, x: Bytes, y: Bytes)
    requires SubsetPart(a) + x == SubsetPart(b) + y
    ensures a == b && x == y
  {
    SubsetStart(a, x);
    SubsetStart(b, y);
    if a.Some? {
      PrefixedThen([S], a.value, b.value, x, y);
    } else {
      CancelFront([N], x, y);
    }
  }

  // ----- active-request lanes -----

  datatype DestinationScope = DestinationScope(namespace: Bytes, destination: Bytes, policyPort: nat,
                                               subset: Option<Bytes>)

  function ActiveKey(s: DestinationScope): Bytes {
    Prefixed([N], s.namespace) + Prefixed([BAR, D], s.destination) + [BAR] + Decimal(s.policyPort) + [BAR]
      + SubsetPart(s.subset)
  }

  /** The same with its first part split off. */
  lemma ActiveKeyParts(s: DestinationScope)
    ensures ActiveKey(s) == Prefixed([N], s.namespace)
                            + (Prefixed([BAR, D], s.destination)
                              + ([BAR] + (Decimal(s.policyPort) + [BAR] + SubsetPart(s.subset))))
  {
    var (a, b, c) := (Prefixed([N], s.namespace), Prefixed([BAR, D], s.destination), Decimal(s.policyPort));
    var d := SubsetPart(s.subset);
    assert a + b + [BAR] + c + [BAR] + d == a + b + ([BAR] + (c + [BAR] + d));
    Assoc(a, b, [BAR] + (c + [BAR] + d));
  }

  /** One length-prefixed part appended to the buffer. */
  method WritePrefixed(buf: Bytes, tag: Bytes, value: Bytes) returns (r: Bytes)
    ensures r == buf + Prefixed(tag, value)
  {
    r := buf + tag;
    r := r + Decimal(|value|) + [COLON];
    r := r + value;
  }

  method WriteSubset(buf: Bytes, subset: Option<Bytes>) returns (r: Bytes)
    ensures r == buf + SubsetPart(subset)
  {
    match subset {
      case Some(name) => r := WritePrefixed(buf, [S], name);
      case None => r := buf + [N];
    }
  }

  /** The key appended piece by piece to a cleared buffer. */
  method WriteActiveKey(s: DestinationScope) returns (buf: Bytes)
    ensures buf == ActiveKey(s)
  {
    buf := WritePrefixed([], [N], s.namespace);
    buf := WritePrefixed(buf, [BAR, D], s.destination);
    buf := buf + [BAR];
    buf := buf + Decimal(s.policyPort);
    buf := buf + [BAR];
    buf := WriteSubset(buf, s.subset);
  }

  /** Equal keys mean equal scopes. */
  lemma ActiveKeyInjective(s: DestinationScope, t: DestinationScope)
    requires ActiveKey(s) == ActiveKey(t)
    ensures s == t
  {
    ActiveKeyParts(s);
    ActiveKeyParts(t);
    var (s3, t3) := (Decimal(s.policyPort) + [BAR] + SubsetPart(s.subset),
      Decimal(t.policyPort) + [BAR] + SubsetPart(t.subset));
    PrefixedThen([N], s.namespace, t.namespace,
                 Prefixed([BAR, D], s.destination) + ([BAR] + s3), Prefixed([BAR, D], t.destination) + ([BAR] + t3));
    PrefixedThen([BAR, D], s.destination, t.destination, [BAR] + s3, [BAR] + t3);
    CancelFront([BAR], s3, t3);
    DecimalThen(s.policyPort, t.policyPort, BAR, SubsetPart(s.subset), SubsetPart(t.subset));
    SubsetInjective(s.subset, t.subset);
  }

  lemma SubsetInjective(a: Option<Bytes>, b: Option<Bytes>)
    requires SubsetPart(a) == SubsetPart(b)
    ensures a == b
  {
    var none: Bytes := [];
    assert SubsetPart(a) + none == SubsetPart(a) && SubsetPart(b) + none == SubsetPart(b);
    SubsetThen(a, b, none, none);
  }

  // ----- pending-request lanes -----

  datatype PendingScope = PendingScope(namespace: Bytes, upstreamId: Bytes, serviceUid: Option<Bytes>,
                                       subset: Option<Bytes>)

  /** An empty uid is no uid. */
  function EffectiveUid(s: PendingScope): Option<Bytes> { if s.serviceUid == Some([]) then None else s.serviceUid }

  function UidPart(uid: Option<Bytes>): Bytes {
    match uid case Some(u) => Prefixed([BAR] + TAG_UID, u) case None => []
  }

  function ScopePrefix(s: PendingScope): Bytes {
    Prefixed(TAG_NS, s.namespace) + Prefixed([BAR] + TAG_ID, s.upstreamId) + UidPart(EffectiveUid(s)) + [BAR]
      + SubsetPart(s.subset) + [BAR]
  }

  function PendingKey(s: PendingScope, port: nat): Bytes { ScopePrefix(s) + Decimal(port) }

  /** A bar, then a prefixed part. */
  method WriteBarred(buf: Bytes, tag: Bytes, value: Bytes) returns (r: Bytes)
    ensures r == buf + Prefixed([BAR] + tag, value)
  {
    r := buf + [BAR];
    r := WritePrefixed(r, tag, value);
    assert Prefixed([BAR] + tag, value) == [BAR] + Prefixed(tag, value);
  }

  method WriteUid(buf: Bytes, s: PendingScope) returns (r: Bytes)
    ensures r == buf + UidPart(EffectiveUid(s))
  {
    r := buf;
    if s.serviceUid.Some? && s.serviceUid.value != [] {
      r := WriteBarred(r, TAG_UID, s.serviceUid.value);
    }
  }

  /** Everything up to the upstream's uid. */
  function ScopeHead(s: PendingScope): Bytes {
    Prefixed(TAG_NS, s.namespace) + Prefixed([BAR] + TAG_ID, s.upstreamId) + UidPart(EffectiveUid(s))
  }

  method WriteScopeHead(s: PendingScope) returns (buf: Bytes)
    ensures buf == ScopeHead(s)
  {
    buf := WritePrefixed([], TAG_NS, s.namespace);
    buf := WriteBarred(buf, TAG_ID, s.upstreamId);
    buf := WriteUid(buf, s);
  }

  method WriteScopePrefix(s: PendingScope) returns (buf: Bytes)
    ensures buf == ScopePrefix(s)
  {
    buf := WriteScopeHead(s);
    buf := buf + [BAR];
    buf := WriteSubset(buf, s.subset);
    buf := buf + [BAR];
  }

  method WritePendingKey(s: PendingScope, port: nat) returns (buf: Bytes)
    ensures buf == PendingKey(s, port)
  {
    buf := WriteScopePrefix(s);
    buf := buf + Decimal(port);
  }

  /** What follows the upstream id. */
  function Tail(uid: Option<Bytes>, subset: Option<Bytes>, port: nat): Bytes {
    UidPart(uid) + ([BAR] + (SubsetPart(subset) + ([BAR] + Decimal(port))))
  }

  lemma PendingKeyParts(s: PendingScope, port: nat)
    ensures PendingKey(s, port) ==
            Prefixed(TAG_NS, s.namespace) + (Prefixed([BAR] + TAG_ID, s.upstreamId)
              + Tail(EffectiveUid(s), s.subset, port))
  {
    var (a, b, c) := (Prefixed(TAG_NS, s.namespace), Prefixed([BAR] + TAG_ID, s.upstreamId), UidPart(EffectiveUid(s)));
    var (d, e) := (SubsetPart(s.subset), Decimal(port));
    assert a + b + c + [BAR] + d + [BAR] + e == a + b + c + ([BAR] + (d + ([BAR] + e)));
    Assoc(a + b, c, [BAR] + (d + ([BAR] + e)));
    Assoc(a, b, c + ([BAR] + (d + ([BAR] + e))));
  }

  function SecondByte(text: Bytes): Byte { if |text| < 2 then 0 else text[1] }

  lemma TailStart(uid: Option<Bytes>, subset: Option<Bytes>, port: nat)
    ensures SecondByte(Tail(uid, subset, port)) == if uid.Some? then TAG_UID[0] else if subset.Some? then S else N
  {
    if uid.Some? {
      assert UidPart(uid)[1] == TAG_UID[0] && |UidPart(uid)| > 2;
    } else {
      SubsetStart(subset, [BAR] + Decimal(port));
      assert Tail(uid, subset, port) == [BAR] + (SubsetPart(subset) + ([BAR] + Decimal(port)));
    }
  }

  /** The presence of a uid can be told from the byte after the bar, and then everything can be read back. */
  lemma TailInjective(a: Option<Bytes>, b: Option<Bytes>, s: Option<Bytes>, t: Option<Bytes>, port: nat, port': nat)
    requires Tail(a, s, port) == Tail(b, t, port')
    ensures a == b && s == t && port == port'
  {
    var (x, y) := ([BAR] + Decimal(port), [BAR] + Decimal(port'));
    var (p, q) := ([BAR] + (SubsetPart(s) + x), [BAR] + (SubsetPart(t) + y));
    TailStart(a, s, port);
    TailStart(b, t, port');
    if a.Some? {
      PrefixedThen([BAR] + TAG_UID, a.value, b.value, p, q);
    } else {
      assert UidPart(a) + p == p && UidPart(b) + q == q;
    }
    CancelFront([BAR], SubsetPart(s) + x, SubsetPart(t) + y);
    SubsetThen(s, t, x, y);
    CancelFront([BAR], Decimal(port), Decimal(port'));
    DecimalInjective(port, port');
  }

  /** Equal keys mean equal namespace, id, uid, subset and port, an empty uid counting as none; and conversely. */
  lemma PendingKeyInjective(s: PendingScope, t: PendingScope, port: nat, port': nat)
    ensures PendingKey(s, port) == PendingKey(t, port') <==>
            && s.namespace == t.namespace && s.upstreamId == t.upstreamId && EffectiveUid(s) == EffectiveUid(t)
            && s.subset == t.subset && port == port'
  {
    PendingKeyParts(s, port);
    PendingKeyParts(t, port');
    if PendingKey(s, port) == PendingKey(t, port') {
      var (x, y) := (Tail(EffectiveUid(s), s.subset, port), Tail(EffectiveUid(t), t.subset, port'));
      PrefixedThen(TAG_NS, s.namespace, t.namespace, Prefixed([BAR] + TAG_ID, s.upstreamId) + x,
        Prefixed([BAR] + TAG_ID, t.upstreamId) + y);
      PrefixedThen([BAR] + TAG_ID, s.upstreamId, t.upstreamId, x, y);
      TailInjective(EffectiveUid(s), EffectiveUid(t), s.subset, t.subset, port, port');
    }
  }
}
