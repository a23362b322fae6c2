// Writing and reading a blinded path.
module BlindedPathCodec {
  import opened Common

  type Bytes = seq<Byte>

  const KEY_SIZE := 33
  const MAX_BUF_SIZE := 64 * 1024

  // Which 33-byte strings are points of the curve.
  type Curve = Bytes -> bool

  datatype Direction = NodeOne | NodeTwo

  datatype IntroductionNode = NodeId(key: Bytes) | DirectedShortChannelId(direction: Direction, scid: nat)

  datatype Hop = Hop(nodeId: Bytes, payload: Bytes)

  datatype BlindedPath = BlindedPath(introduction: IntroductionNode, blindingPoint: Bytes, hops: seq<Hop>)

  datatype DecodeError = ShortRead | InvalidValue

  // A value and the bytes after it.
  type Decoded<T> = Result<(T, Bytes), DecodeError>

  // A compressed public key: 2 or 3 first, and a point of the curve.
  predicate IsKey(b: Bytes, curve: Curve) {
    |b| == KEY_SIZE && (b[0] == 2 || b[0] == 3) && curve(b)
  }

  predicate IsHop(h: Hop, curve: Curve) {
    IsKey(h.nodeId, curve) && |h.payload| < U64
  }

  // What the types of the source guarantee of a path.
  ghost predicate IsPath(p: BlindedPath, curve: Curve) {
    && (match p.introduction
        case NodeId(key) => IsKey(key, curve)
        case DirectedShortChannelId(_, scid) => scid < U64)
    && IsKey(p.blindingPoint, curve)
    && forall h :: h in p.hops ==> IsHop(h, curve)
  }

  // ---- Integers ----

  function Pow256(n: nat): nat {
    if n == 0 then 1 else 256 * Pow256(n - 1)
  }

  function BigEndian(n: nat, v: nat): (s: Bytes)
    ensures |s| == n
  {
    if n == 0 then [] else BigEndian(n - 1, v / 256) + [v % 256]
  }

  function FromBigEndian(s: Bytes): nat {
    if s == [] then 0 else FromBigEndian(s[..|s| - 1]) * 256 + s[|s| - 1]
  }

  lemma {:induction false} ReadsBack(n: nat, v: nat)
    requires v < Pow256(n)
    ensures FromBigEndian(BigEndian(n, v)) == v
  {
    if n > 0 {
      ReadsBack(n - 1, v / 256);
      var s := BigEndian(n, v);
      assert s[..n - 1] == BigEndian(n - 1, v / 256);
    }
  }

  lemma {:induction false} WritesBack(s: Bytes)
    ensures FromBigEndian(s) < Pow256(|s|) && BigEndian(|s|, FromBigEndian(s)) == s
  {
    if s != [] {
      var n := |s|;
      WritesBack(s[..n - 1]);
      var last: int := s[n - 1];
      assert FromBigEndian(s) / 256 == FromBigEndian(s[..n - 1]);
      assert FromBigEndian(s) % 256 == last;
      assert s == s[..n - 1] + [s[n - 1]];
    }
  }

  lemma Powers()
    ensures Pow256(2) == 0x1_0000 && Pow256(8) == U64
  {
    assert Pow256(1) == 256;
    assert Pow256(3) == 0x100_0000;
    assert Pow256(4) == 0x1_0000_0000;
    assert Pow256(5) == 0x100_0000_0000;
    assert Pow256(6) == 0x1_0000_0000_0000;
    assert Pow256(7) == 0x100_0000_0000_0000;
  }

  // ---- Encoding ----

  function EncodeLength(n: nat): Bytes {
    if n < 0xffff then BigEndian(2, n) else BigEndian(2, 0xffff) + BigEndian(8, n - 0xffff)
  }

  function EncodeHop(h: Hop): Bytes {
    h.nodeId + (EncodeLength(|h.payload|) + h.payload)
  }

  function EncodeHops(hops: seq<Hop>): Bytes {
    if hops == [] then [] else EncodeHop(hops[0]) + EncodeHops(hops[1..])
  }

  function EncodeIntroduction(i: IntroductionNode): Bytes {
    match i
    case NodeId(key) => key
    case DirectedShortChannelId(direction, scid) => [if direction.NodeOne? then 0 else 1] + BigEndian(8, scid)
  }

  // The number of hops is cut down to one byte.
  function EncodePath(p: BlindedPath): Bytes {
    EncodeIntroduction(p.introduction) + (p.blindingPoint + ([|p.hops| % 256] + EncodeHops(p.hops)))
  }

  // ---- Decoding ----

  function Take(n: nat, s: Bytes): Decoded<Bytes> {
    if |s| < n then Err(ShortRead) else Ok((s[..n], s[n..]))
  }

  function DecodeUint(n: nat, s: Bytes): Decoded<nat> {
    match Take(n, s)
    case Err(e) => Err(e)
    case Ok((b, rest)) => Ok((FromBigEndian(b), rest))
  }

  function DecodeLength(s: Bytes): Decoded<nat> {
    match DecodeUint(2, s)
    case Err(e) => Err(e)
    case Ok((v, rest)) =>
      if v != 0xffff then Ok((v, rest))
      else match DecodeUint(8, rest)
        case Err(e) => Err(e)
        case Ok((w, after)) => if w + 0xffff >= U64 then Err(InvalidValue) else Ok((w + 0xffff, after))
  }

  function DecodeBytes(s: Bytes): Decoded<Bytes> {
    match DecodeLength(s)
    case Err(e) => Err(e)
    case Ok((n, rest)) => Take(n, rest)
  }

  function DecodeKey(s: Bytes, curve: Curve): Decoded<Bytes> {
    match Take(KEY_SIZE, s)
    case Err(e) => Err(e)
    case Ok((b, rest)) => if IsKey(b, curve) then Ok((b, rest)) else Err(InvalidValue)
  }

  function DecodeHop(s: Bytes, curve: Curve): Decoded<Hop> {
    match DecodeKey(s, curve)
    case Err(e) => Err(e)
    case Ok((key, rest)) =>
      match DecodeBytes(rest)
      case Err(e) => Err(e)
      case Ok((payload, after)) => Ok((Hop(key, payload), after))
  }

  function DecodeHops(n: nat, s: Bytes, curve: Curve): Decoded<seq<Hop>>
    decreases n
  {
    if n == 0 then Ok(([], s))
    else match DecodeHop(s, curve)
      case Err(e) => Err(e)
      case Ok((h, rest)) =>
        match DecodeHops(n - 1, rest, curve)
        case Err(e) => Err(e)
        case Ok((hops, after)) => Ok(([h] + hops, after))
  }

  // The first byte tells a direction from the start of a key.
  function DecodeIntroduction(s: Bytes, curve: Curve): Decoded<IntroductionNode> {
    if s == [] then Err(ShortRead)
    else if s[0] == 0 || s[0] == 1 then
      match DecodeUint(8, s[1..])
      case Err(e) => Err(e)
      case Ok((scid, rest)) => Ok((DirectedShortChannelId(if s[0] == 0 then NodeOne else NodeTwo, scid), rest))
    else if s[0] == 2 || s[0] == 3 then
      match DecodeKey(s, curve)
      case Err(e) => Err(e)
      case Ok((key, rest)) => Ok((NodeId(key), rest))
    else Err(InvalidValue)
  }

  function DecodePath(s: Bytes, curve: Curve): Decoded<BlindedPath> {
    match DecodeIntroduction(s, curve)
    case Err(e) => Err(e)
    case Ok((introduction, s1)) =>
      match DecodeKey(s1, curve)
      case Err(e) => Err(e)
      case Ok((point, s2)) =>
        if s2 == [] then Err(ShortRead)
        else if s2[0] == 0 then Err(InvalidValue)
        else match DecodeHops(s2[0], s2[1..], curve)
          case Err(e) => Err(e)
          case Ok((hops, rest)) => Ok((BlindedPath(introduction, point, hops), rest))
  }

  // ---- Reading back what was written ----

  lemma TakeBack(b: Bytes, rest: Bytes)
    ensures Take(|b|, b + rest) == Ok((b, rest))
  {
  }

  lemma UintReadsBack(n: nat, v: nat, rest: Bytes)
    requires v < Pow256(n)
    ensures DecodeUint(n, BigEndian(n, v) + rest) == Ok((v, rest))
  {
    TakeBack(BigEndian(n, v), rest);
    ReadsBack(n, v);
  }

  lemma LengthReadsBack(n: nat, rest: Bytes)
    requires n < U64
    ensures DecodeLength(EncodeLength(n) + rest) == Ok((n, rest))
  {
    Powers();
    if n < 0xffff {
      UintReadsBack(2, n, rest);
    } else {
      var long := BigEndian(8, n - 0xffff);
      assert EncodeLength(n) + rest == BigEndian(2, 0xffff) + (long + rest);
      UintReadsBack(2, 0xffff, long + rest);
      UintReadsBack(8, n - 0xffff, rest);
    }
  }

  lemma HopReadsBack(h: Hop, rest: Bytes, curve: Curve)
    requires IsHop(h, curve)
    ensures DecodeHop(EncodeHop(h) + rest, curve) == Ok((h, rest))
  {
    hide BigEndian, DecodeLength;
    var length := EncodeLength(|h.payload|);
    var tail := length + (h.payload + rest);
    assert EncodeHop(h) + rest == h.nodeId + tail;
    TakeBack(h.nodeId, tail);
    LengthReadsBack(|h.payload|, h.payload + rest);
    TakeBack(h.payload, rest);
  }

  // However many hops follow, the first `n` are read.
  lemma {:induction false} HopsReadBack(hops: seq<Hop>, n: nat, rest: Bytes, curve: Curve)
    requires n <= |hops| && forall h :: h in hops ==> IsHop(h, curve)
    ensures DecodeHops(n, EncodeHops(hops) + rest, curve) == Ok((hops[..n], EncodeHops(hops[n..]) + rest))
    decreases n
  {
    hide EncodeHop, DecodeHop, IsHop;
    if n == 0 {
      assert hops[0..] == hops;
    } else {
      var tail := EncodeHops(hops[1..]) + rest;
      assert EncodeHops(hops) + rest == EncodeHop(hops[0]) + tail;
      HopReadsBack(hops[0], tail, curve);
      HopsReadBack(hops[1..], n - 1, rest, curve);
      assert hops[1..][n - 1..] == hops[n..];
      assert [hops[0]] + hops[1..][..n - 1] == hops[..n];
    }
  }

  lemma IntroductionReadsBack(i: IntroductionNode, rest: Bytes, curve: Curve)
    requires match i case NodeId(key) => IsKey(key, curve) case DirectedShortChannelId(_, scid) => scid < U64
    ensures DecodeIntroduction(EncodeIntroduction(i) + rest, curve) == Ok((i, rest))
  {
    match i
    case NodeId(key) =>
      TakeBack(key, rest);
    case DirectedShortChannelId(direction, scid) =>
      var s := EncodeIntroduction(i) + rest;
      assert s[1..] == BigEndian(8, scid) + rest;
      Powers();
      UintReadsBack(8, scid, rest);
  }

  // What reading a written path gives, for any number of hops: nothing if the count cut down to a
  // byte is zero, and otherwise only that many hops.
  lemma PathReadsBack(p: BlindedPath, rest: Bytes, curve: Curve)
    requires IsPath(p, curve)
    ensures
      var n := |p.hops| % 256;
      DecodePath(EncodePath(p) + rest, curve) ==
        if n == 0 then Err(InvalidValue) else Ok((p.(hops := p.hops[..n]), EncodeHops(p.hops[n..]) + rest))
  {
    hide DecodeIntroduction, EncodeIntroduction, DecodeHops, EncodeHops, IsKey;
    var n := |p.hops| % 256;
    var s3 := EncodeHops(p.hops) + rest;
    var s2 := [n] + s3;
    var s1 := p.blindingPoint + s2;
    assert EncodePath(p) + rest == EncodeIntroduction(p.introduction) + s1 by {
      assert p.blindingPoint + ([n] + EncodeHops(p.hops)) + rest == s1;
    }
    IntroductionReadsBack(p.introduction, s1, curve);
    KeyReadsBack(p.blindingPoint, s2, curve);
    assert s2[1..] == s3;
    HopsReadBack(p.hops, n, rest, curve);
  }

  lemma KeyReadsBack(key: Bytes, rest: Bytes, curve: Curve)
    requires IsKey(key, curve)
    ensures DecodeKey(key + rest, curve) == Ok((key, rest))
  {
    TakeBack(key, rest);
  }

  // Reading back gives the same path and leaves what follows untouched exactly when the path has
  // 1 to 255 hops.
  lemma RoundTripExactlyWhen(p: BlindedPath, rest: Bytes, curve: Curve)
    requires IsPath(p, curve)
    ensures DecodePath(EncodePath(p) + rest, curve) == Ok((p, rest)) <==> 1 <= |p.hops| <= 255
  {
    hide DecodePath, EncodePath;
    PathReadsBack(p, rest, curve);
    var n := |p.hops| % 256;
    if 1 <= |p.hops| <= 255 {
      assert p.hops[..n] == p.hops && p.hops[n..] == [];
      assert EncodeHops([]) + rest == rest;
    }
  }

  // ---- The bytes of a path ----

  // The byte of `v` that counts for 256 to the power of `k`.
  function Digit(v: nat, k: nat): nat {
    if k == 0 then v % 256 else Digit(v / 256, k - 1)
  }

  // Integers are written with the most significant byte first.
  lemma {:induction false} BigEndianDigits(n: nat, v: nat, i: nat)
    requires i < n
    ensures BigEndian(n, v)[i] as int == Digit(v, n - 1 - i)
    decreases n
  {
    if i < n - 1 { BigEndianDigits(n - 1, v / 256, i); }
  }

  // A path is written as its introduction (33 bytes of a key, or a direction and 8 bytes of a channel
  // id), 33 bytes of a point, one byte for the number of hops, and the hops.
  lemma PathLayout(p: BlindedPath, curve: Curve, i: nat)
    requires IsPath(p, curve) && i < 8
    ensures
      var s, n := EncodePath(p), if p.introduction.NodeId? then 33 else 9;
      && |s| >= n + 34
      && (match p.introduction
          case NodeId(key) => s[..33] == key
          case DirectedShortChannelId(direction, scid) =>
            s[0] == (if direction.NodeOne? then 0 else 1) && s[1 + i] as int == Digit(scid, 7 - i))
      && s[n..n + 33] == p.blindingPoint
      && s[n + 33] as int == |p.hops| % 256
      && s[n + 34..] == EncodeHops(p.hops)
  {
    hide BigEndian, EncodeHops, Digit;
    var start := EncodeIntroduction(p.introduction);
    var count: Bytes := [|p.hops| % 256];
    InFront(start, p.blindingPoint + (count + EncodeHops(p.hops)));
    InFront(p.blindingPoint, count + EncodeHops(p.hops));
    InFront(count, EncodeHops(p.hops));
    match p.introduction
    case NodeId(key) =>
    case DirectedShortChannelId(direction, scid) => BigEndianDigits(8, scid, i);
  }

  lemma InFront(a: Bytes, b: Bytes)
    ensures (a + b)[..|a|] == a && (a + b)[|a|..] == b
    ensures forall k :: 0 <= k < |a| ==> (a + b)[k] == a[k]
    ensures forall i, j :: 0 <= i <= j <= |b| ==> (a + b)[|a| + i..|a| + j] == b[i..j]
    ensures forall i :: 0 <= i <= |b| ==> (a + b)[|a| + i..] == b[i..]
  {
  }

  // The length of a payload takes two bytes, or from 0xffff on two bytes 0xff and what it has beyond
  // 0xffff in eight.
  lemma LengthLayout(n: nat, i: nat)
    requires n < U64 && i < 8
    ensures
      var s := EncodeLength(n);
      if n < 0xffff then |s| == 2 && s[0] as int == n / 256 && s[1] as int == n % 256
      else |s| == 10 && s[0] == 0xff && s[1] == 0xff && s[2 + i] as int == Digit(n - 0xffff, 7 - i)
  {
    hide BigEndian, Digit;
    TwoBytes(if n < 0xffff then n else 0xffff);
    if n >= 0xffff { BigEndianDigits(8, n - 0xffff, i); }
  }

  lemma TwoBytes(v: nat)
    requires v < 0x1_0000
    ensures BigEndian(2, v)[0] as int == v / 256 && BigEndian(2, v)[1] as int == v % 256
  {
    BigEndianDigits(2, v, 0);
    BigEndianDigits(2, v, 1);
    assert Digit(v, 1) == Digit(v / 256, 0);
  }

  // A hop is written as the 33 bytes of its key, the length of its payload, and the payload.
  lemma HopLayout(hops: seq<Hop>, curve: Curve)
    requires hops != [] && IsHop(hops[0], curve)
    ensures
      var s, n := EncodeHops(hops), |hops[0].payload|;
      var size := |EncodeLength(n)|;
      && |s| >= 33 + size + n
      && s[..33] == hops[0].nodeId
      && s[33..33 + size] == EncodeLength(n)
      && s[33 + size..33 + size + n] == hops[0].payload
      && s[33 + size + n..] == EncodeHops(hops[1..])
  {
    hide EncodeLength;
  }

  // ---- Truncated input ----

  // The first `k` bytes of two pieces: part of the first, or all of it and part of the second.
  lemma Truncated(a: Bytes, b: Bytes, k: nat)
    requires k <= |a| + |b|
    ensures (a + b)[..k] == if k < |a| then a[..k] else a + b[..k - |a|]
  {
  }

  lemma LengthCutShort(n: nat, k: nat)
    requires n < U64 && k < |EncodeLength(n)|
    ensures DecodeLength(EncodeLength(n)[..k]) == Err(ShortRead)
  {
    hide BigEndian, FromBigEndian;
    Powers();
    hide Pow256;
    if n >= 0xffff {
      Truncated(BigEndian(2, 0xffff), BigEndian(8, n - 0xffff), k);
      if k >= 2 { UintReadsBack(2, 0xffff, BigEndian(8, n - 0xffff)[..k - 2]); }
    }
  }

  lemma HopCutShort(h: Hop, k: nat, curve: Curve)
    requires IsHop(h, curve) && k < |EncodeHop(h)|
    ensures DecodeHop(EncodeHop(h)[..k], curve) == Err(ShortRead)
  {
    hide EncodeLength, DecodeLength;
    var n, length := |h.payload|, EncodeLength(|h.payload|);
    Truncated(h.nodeId, length + h.payload, k);
    if k >= |h.nodeId| {
      var j := k - |h.nodeId|;
      KeyReadsBack(h.nodeId, (length + h.payload)[..j], curve);
      Truncated(length, h.payload, j);
      if j < |length| {
        LengthCutShort(n, j);
      } else {
        LengthReadsBack(n, h.payload[..j - |length|]);
      }
    }
  }

  lemma {:induction false} HopsCutShort(hops: seq<Hop>, k: nat, curve: Curve)
    requires k < |EncodeHops(hops)| && forall h :: h in hops ==> IsHop(h, curve)
    ensures DecodeHops(|hops|, EncodeHops(hops)[..k], curve) == Err(ShortRead)
  {
    hide EncodeHop, DecodeHop, IsHop;
    if hops != [] {
      Truncated(EncodeHop(hops[0]), EncodeHops(hops[1..]), k);
      var n := |EncodeHop(hops[0])|;
      if k < n {
        HopCutShort(hops[0], k, curve);
      } else {
        HopReadsBack(hops[0], EncodeHops(hops[1..])[..k - n], curve);
        HopsCutShort(hops[1..], k - n, curve);
      }
    }
  }

  // Cut anywhere, a written path is reported as too short: never as invalid, and never as another path.
  lemma CutIsShort(p: BlindedPath, k: nat, curve: Curve)
    requires IsPath(p, curve) && 1 <= |p.hops| <= 255 && k < |EncodePath(p)|
    ensures DecodePath(EncodePath(p)[..k], curve) == Err(ShortRead)
  {
    hide EncodeIntroduction, DecodeIntroduction, EncodeHops, DecodeHops, IsKey, DecodeKey;
    var start, n := EncodeIntroduction(p.introduction), |p.hops|;
    var s3 := EncodeHops(p.hops);
    var s2 := [n % 256] + s3;
    var s1 := p.blindingPoint + s2;
    Truncated(start, s1, k);
    if k < |start| {
      IntroductionCutShort(p.introduction, k, curve);
    } else {
      var j := k - |start|;
      IntroductionReadsBack(p.introduction, s1[..j], curve);
      Truncated(p.blindingPoint, s2, j);
      if j < |p.blindingPoint| {
        KeyCutShort(p.blindingPoint, j, curve);
      } else {
        var i := j - |p.blindingPoint|;
        KeyReadsBack(p.blindingPoint, s2[..i], curve);
        if i > 0 {
          assert s2[..i] == [n % 256] + s3[..i - 1] && s2[..i][1..] == s3[..i - 1];
          HopsCutShort(p.hops, i - 1, curve);
        }
      }
    }
  }

  lemma KeyCutShort(key: Bytes, k: nat, curve: Curve)
    requires IsKey(key, curve) && k < |key|
    ensures DecodeKey(key[..k], curve) == Err(ShortRead)
  {
  }

  lemma IntroductionCutShort(i: IntroductionNode, k: nat, curve: Curve)
    requires match i case NodeId(key) => IsKey(key, curve) case DirectedShortChannelId(_, scid) => scid < U64
    requires k < |EncodeIntroduction(i)|
    ensures DecodeIntroduction(EncodeIntroduction(i)[..k], curve) == Err(ShortRead)
  {
    hide BigEndian;
  }

  // ---- Every path has one encoding ----

  lemma TakenIs(n: nat, s: Bytes)
    requires Take(n, s).Ok?
    ensures var (b, rest) := Take(n, s).value; |b| == n && s == b + rest
  {
  }

  lemma UintIs(n: nat, s: Bytes)
    requires DecodeUint(n, s).Ok?
    ensures var (v, rest) := DecodeUint(n, s).value; v < Pow256(n) && s == BigEndian(n, v) + rest
  {
    TakenIs(n, s);
    WritesBack(s[..n]);
  }

  lemma LengthIs(s: Bytes)
    requires DecodeLength(s).Ok?
    ensures var (n, rest) := DecodeLength(s).value; n < U64 && s == EncodeLength(n) + rest
  {
    hide BigEndian, FromBigEndian;
    Powers();
    UintIs(2, s);
    var (v, rest) := DecodeUint(2, s).value;
    if v == 0xffff {
      UintIs(8, rest);
      var (w, after) := DecodeUint(8, rest).value;
      assert BigEndian(2, v) + (BigEndian(8, w) + after) == BigEndian(2, v) + BigEndian(8, w) + after;
    }
  }

  lemma HopIs(s: Bytes, curve: Curve)
    requires DecodeHop(s, curve).Ok?
    ensures var (h, rest) := DecodeHop(s, curve).value; IsHop(h, curve) && s == EncodeHop(h) + rest
  {
    hide DecodeLength, EncodeLength;
    TakenIs(KEY_SIZE, s);
    var (key, s1) := DecodeKey(s, curve).value;
    LengthIs(s1);
    var (n, s2) := DecodeLength(s1).value;
    TakenIs(n, s2);
    var (payload, rest) := Take(n, s2).value;
    assert key + (EncodeLength(n) + (payload + rest)) == key + (EncodeLength(n) + payload) + rest;
  }

  lemma {:induction false} HopsAre(n: nat, s: Bytes, curve: Curve)
    requires DecodeHops(n, s, curve).Ok?
    ensures var (hops, rest) := DecodeHops(n, s, curve).value;
            |hops| == n && s == EncodeHops(hops) + rest && forall h :: h in hops ==> IsHop(h, curve)
    decreases n
  {
    hide DecodeHop, EncodeHop, IsHop;
    if n > 0 {
      HopIs(s, curve);
      var (h, s1) := DecodeHop(s, curve).value;
      HopsAre(n - 1, s1, curve);
      var (hops, rest) := DecodeHops(n - 1, s1, curve).value;
      assert ([h] + hops)[1..] == hops;
      assert EncodeHop(h) + (EncodeHops(hops) + rest) == EncodeHop(h) + EncodeHops(hops) + rest;
    }
  }

  lemma IntroductionIs(s: Bytes, curve: Curve)
    requires DecodeIntroduction(s, curve).Ok?
    ensures var (i, rest) := DecodeIntroduction(s, curve).value;
            && s == EncodeIntroduction(i) + rest
            && (match i case NodeId(key) => IsKey(key, curve) case DirectedShortChannelId(_, scid) => scid < U64)
            && (i.NodeId? <==> s[0] == 2 || s[0] == 3)
  {
    if s[0] == 0 || s[0] == 1 {
      Powers();
      UintIs(8, s[1..]);
      var (scid, rest) := DecodeUint(8, s[1..]).value;
      assert s == [s[0]] + s[1..];
      assert [s[0]] + (BigEndian(8, scid) + rest) == [s[0]] + BigEndian(8, scid) + rest;
    } else {
      TakenIs(KEY_SIZE, s);
    }
  }

  // Bytes that read as a path are just the encoding of that path and what follows, so no path has a
  // second encoding; and the path has 1 to 255 hops.
  lemma EncodingIsUnique(s: Bytes, curve: Curve)
    requires DecodePath(s, curve).Ok?
    ensures var (p, rest) := DecodePath(s, curve).value;
            IsPath(p, curve) && 1 <= |p.hops| <= 255 && s == EncodePath(p) + rest
  {
    hide DecodeIntroduction, EncodeIntroduction, DecodeHops, EncodeHops, IsHop;
    IntroductionIs(s, curve);
    var (i, s1) := DecodeIntroduction(s, curve).value;
    TakenIs(KEY_SIZE, s1);
    var (point, s2) := DecodeKey(s1, curve).value;
    HopsAre(s2[0], s2[1..], curve);
    var (hops, rest) := DecodeHops(s2[0], s2[1..], curve).value;
    assert s2 == [s2[0]] + s2[1..];
    Regroup(EncodeIntroduction(i), point, [s2[0]], EncodeHops(hops), rest);
  }

  lemma Regroup(a: Bytes, b: Bytes, c: Bytes, d: Bytes, e: Bytes)
    ensures a + (b + (c + (d + e))) == a + (b + (c + d)) + e
  {
  }

  // ---- The writer and the reader ----

  class Writer {
    var written: Bytes

    constructor ()
      ensures written == []
    {
      written := [];
    }

    method WriteAll(b: Bytes)
      modifies this
      ensures written == old(written) + b
    {
      written := written + b;
    }

    method WriteHop(h: Hop)
      modifies this
      ensures written == old(written) + EncodeHop(h)
    {
      WriteAll(h.nodeId);
      if |h.payload| < 0xffff {
        WriteAll(BigEndian(2, |h.payload|));
      } else {
        WriteAll(BigEndian(2, 0xffff));
        WriteAll(BigEndian(8, |h.payload| - 0xffff));
      }
      WriteAll(h.payload);
    }

    method WritePath(p: BlindedPath)
      modifies this
      ensures written == old(written) + EncodePath(p)
    {
      hide EncodeHops, BigEndian;
      match p.introduction {
        case NodeId(key) => WriteAll(key);
        case DirectedShortChannelId(direction, scid) =>
          WriteAll([if direction.NodeOne? then 0 else 1]);
          WriteAll(BigEndian(8, scid));
      }
      WriteAll(p.blindingPoint);
      WriteAll([|p.hops| % 256]);
      WriteHops(p.hops);
    }

    method WriteHops(hops: seq<Hop>)
      modifies this
      ensures written == old(written) + EncodeHops(hops)
    {
      hide EncodeHop;
      var i := 0;
      assert hops[0..] == hops;
      while i < |hops|
        invariant i <= |hops|
        invariant written + EncodeHops(hops[i..]) == old(written) + EncodeHops(hops)
      {
        assert hops[i..][0] == hops[i] && hops[i..][1..] == hops[i + 1..];
        ghost var rest := EncodeHops(hops[i + 1..]);
        assert written + (EncodeHop(hops[i]) + rest) == written + EncodeHop(hops[i]) + rest;
        WriteHop(hops[i]);
        i := i + 1;
      }
      assert written + [] == written;
    }
  }

  class Reader {
    var rest: Bytes

    constructor (b: Bytes)
      ensures rest == b
    {
      rest := b;
    }

    method ReadExact(n: nat) returns (r: Result<Bytes, DecodeError>)
      modifies this
      ensures match Take(n, old(rest))
              case Err(e) => r == Err(e)
              case Ok((b, after)) => r == Ok(b) && rest == after
    {
      if |rest| < n { return Err(ShortRead); }
      r := Ok(rest[..n]);
      rest := rest[n..];
    }

    method ReadUint(n: nat) returns (r: Result<nat, DecodeError>)
      modifies this
      ensures match DecodeUint(n, old(rest))
              case Err(e) => r == Err(e)
              case Ok((v, after)) => r == Ok(v) && rest == after
    {
      var b := ReadExact(n);
      if b.Err? { return Err(b.error); }
      return Ok(FromBigEndian(b.value));
    }

    method ReadKey(curve: Curve) returns (r: Result<Bytes, DecodeError>)
      modifies this
      ensures match DecodeKey(old(rest), curve)
              case Err(e) => r == Err(e)
              case Ok((key, after)) => r == Ok(key) && rest == after
    {
      var b := ReadExact(KEY_SIZE);
      if b.Err? { return b; }
      if !IsKey(b.value, curve) { return Err(InvalidValue); }
      return b;
    }

    // The bytes of a vector arrive in pieces of a bounded size.
    method ReadBytes() returns (r: Result<Bytes, DecodeError>)
      modifies this
      ensures match DecodeBytes(old(rest))
              case Err(e) => r == Err(e)
              case Ok((b, after)) => r == Ok(b) && rest == after
    {
      hide FromBigEndian, Take, DecodeUint;
      var short := ReadUint(2);
      if short.Err? { return Err(short.error); }
      var length := short.value;
      if length == 0xffff {
        var long := ReadUint(8);
        if long.Err? { return Err(long.error); }
        if long.value + 0xffff >= U64 { return Err(InvalidValue); }
        length := long.value + 0xffff;
      }
      r := ReadPieces(length);
    }

    // Read `total` bytes, a bounded piece at a time.
    method ReadPieces(total: nat) returns (r: Result<Bytes, DecodeError>)
      modifies this
      ensures match Take(total, old(rest))
              case Err(e) => r == Err(e)
              case Ok((b, after)) => r == Ok(b) && rest == after
    {
      ghost var whole := rest;
      var length := total;
      var read: Bytes := [];
      while length > 0
        invariant 0 <= length && |read| + length == total && |read| <= |whole|
        invariant read == whole[..|read|] && rest == whole[|read|..]
        decreases length
      {
        var amount := Min(length, MAX_BUF_SIZE);
        var piece := ReadExact(amount);
        if piece.Err? { return piece; }
        read := read + piece.value;
        length := length - amount;
      }
      return Ok(read);
    }

    method ReadHop(curve: Curve) returns (r: Result<Hop, DecodeError>)
      modifies this
      ensures match DecodeHop(old(rest), curve)
              case Err(e) => r == Err(e)
              case Ok((h, after)) => r == Ok(h) && rest == after
    {
      hide DecodeKey, DecodeBytes;
      var key := ReadKey(curve);
      if key.Err? { return Err(key.error); }
      var payload := ReadBytes();
      if payload.Err? { return Err(payload.error); }
      return Ok(Hop(key.value, payload.value));
    }

    method ReadIntroduction(curve: Curve) returns (r: Result<IntroductionNode, DecodeError>)
      modifies this
      ensures match DecodeIntroduction(old(rest), curve)
              case Err(e) => r == Err(e)
              case Ok((i, after)) => r == Ok(i) && rest == after
    {
      hide FromBigEndian;
      ghost var start := rest;
      var first := ReadExact(1);
      if first.Err? { return Err(first.error); }
      var b := first.value[0];
      if b == 0 || b == 1 {
        var scid := ReadUint(8);
        if scid.Err? { return Err(scid.error); }
        return Ok(DirectedShortChannelId(if b == 0 then NodeOne else NodeTwo, scid.value));
      } else if b == 2 || b == 3 {
        var more := ReadExact(KEY_SIZE - 1);
        if more.Err? { return Err(more.error); }
        var key := [b] + more.value;
        assert key == start[..KEY_SIZE] && rest == start[KEY_SIZE..];
        if !IsKey(key, curve) { return Err(InvalidValue); }
        return Ok(NodeId(key));
      }
      return Err(InvalidValue);
    }

    method ReadPath(curve: Curve) returns (r: Result<BlindedPath, DecodeError>)
      modifies this
      ensures match DecodePath(old(rest), curve)
              case Err(e) => r == Err(e)
              case Ok((p, after)) => r == Ok(p) && rest == after
    {
      hide DecodeIntroduction, DecodeKey, DecodeHops;
      var introduction := ReadIntroduction(curve);
      if introduction.Err? { return Err(introduction.error); }
      var point := ReadKey(curve);
      if point.Err? { return Err(point.error); }
      var count := ReadExact(1);
      if count.Err? { return Err(count.error); }
      if count.value[0] == 0 { return Err(InvalidValue); }
      var hops := ReadHops(count.value[0], curve);
      if hops.Err? { return Err(hops.error); }
      return Ok(BlindedPath(introduction.value, point.value, hops.value));
    }

    method ReadHops(n: nat, curve: Curve) returns (r: Result<seq<Hop>, DecodeError>)
      modifies this
      ensures match DecodeHops(n, old(rest), curve)
              case Err(e) => r == Err(e)
              case Ok((hops, after)) => r == Ok(hops) && rest == after
    {
      hide DecodeHop;
      var hops: seq<Hop> := [];
      var i := 0;
      ghost var whole := DecodeHops(n, rest, curve);
      BeforeNothing(whole);
      while i < n
        invariant i <= n && Before(hops, DecodeHops(n - i, rest, curve)) == whole
      {
        ghost var start := rest;
        var hop := ReadHop(curve);
        if hop.Err? { return Err(hop.error); }
        BeforeOne(hops, hop.value, DecodeHops(n - i - 1, rest, curve));
        hops := hops + [hop.value];
        i := i + 1;
      }
      assert hops + [] == hops;
      return Ok(hops);
    }
  }

  // A decoding, with the hops decoded before it.
  ghost function Before(hops: seq<Hop>, d: Decoded<seq<Hop>>): Decoded<seq<Hop>> {
    match d
    case Err(e) => Err(e)
    case Ok((more, rest)) => Ok((hops + more, rest))
  }

  lemma BeforeNothing(d: Decoded<seq<Hop>>)
    ensures Before([], d) == d
  {
    if d.Ok? { assert [] + d.value.0 == d.value.0; }
  }

  lemma BeforeOne(hops: seq<Hop>, h: Hop, d: Decoded<seq<Hop>>)
    ensures Before(hops, Before([h], d)) == Before(hops + [h], d)
  {
    if d.Ok? { assert hops + ([h] + d.value.0) == hops + [h] + d.value.0; }
  }
}
