// Reading one P2P message from a byte stream, and finding the next one when the stream is out of step.
module MessageResync {
  import opened Common

  const HEADER_SIZE := 24
  const CHUNK_SIZE := 512
  const MAX_RESYNC_BYTES := 1024 * 1024
  const MAX_MESSAGE_SIZE := 4 * 1024 * 1024

  datatype ReadError = Eof | LostSync(scanned: nat) | TooLarge(size: nat)

  // A stream of bytes that arrives in pieces: `arrives` says how much a read at each position gets.
  class Reader {
    const stream: seq<Byte>
    const arrives: nat -> nat
    var position: nat

    ghost predicate Valid()
      reads this
    {
      position <= |stream|
    }

    constructor (s: seq<Byte>, a: nat -> nat)
      ensures stream == s && arrives == a && position == 0 && Valid()
    {
      stream, arrives, position := s, a, 0;
    }

    // Read exactly `n` bytes, or run into the end.
    method ReadExact(n: nat) returns (r: Result<seq<Byte>, ReadError>)
      requires Valid()
      modifies this
      ensures Valid()
      ensures if old(position) + n <= |stream| then
                r == Ok(stream[old(position)..old(position) + n]) && position == old(position) + n
              else r == Err(Eof) && position == |stream|
    {
      if position + n <= |stream| {
        r := Ok(stream[position..position + n]);
        position := position + n;
      } else {
        r := Err(Eof);
        position := |stream|;
      }
    }

    // Read what has arrived, at most a chunk; nothing only at the end.
    method ReadChunk() returns (chunk: seq<Byte>)
      requires Valid()
      modifies this
      ensures Valid() && position == NextStop(stream, arrives, old(position))
      ensures chunk == stream[old(position)..position] && |chunk| <= CHUNK_SIZE
      ensures chunk == [] <==> old(position) == |stream|
    {
      var next := NextStop(stream, arrives, position);
      chunk := stream[position..next];
      position := next;
    }
  }

  // Where a read of a chunk from `at` stops.
  function NextStop(s: seq<Byte>, arrives: nat -> nat, at: nat): (next: nat)
    requires at <= |s|
    ensures at <= next <= |s| && next <= at + CHUNK_SIZE && (next == at <==> at == |s|)
  {
    at + Min(Max(1, arrives(at)), Min(CHUNK_SIZE, |s| - at))
  }

  // The first stop, reading chunk after chunk from `at`, that is at `least` or beyond.
  function StopFrom(s: seq<Byte>, arrives: nat -> nat, at: nat, least: nat): (stop: nat)
    requires at <= |s|
    ensures at <= stop <= |s| && (least <= |s| ==> least <= stop) && (stop <= at || stop < least + CHUNK_SIZE)
    decreases |s| - at
  {
    if least <= at || at == |s| then at
    else StopFrom(s, arrives, NextStop(s, arrives, at), least)
  }

  // ---- Occurrences of the magic ----

  predicate MagicAt(s: seq<Byte>, i: nat, magic: seq<Byte>) {
    i + |magic| <= |s| && s[i..i + |magic|] == magic
  }

  // No occurrence starts in `from..to`.
  ghost predicate NoneIn(s: seq<Byte>, from: nat, to: nat, magic: seq<Byte>) {
    forall i: nat :: from <= i < to ==> !MagicAt(s, i, magic)
  }

  ghost predicate FirstFrom(s: seq<Byte>, from: nat, m: nat, magic: seq<Byte>) {
    from <= m && MagicAt(s, m, magic) && NoneIn(s, from, m, magic)
  }

  // The first occurrence in a window.
  method FindMagic(window: seq<Byte>, magic: seq<Byte>) returns (r: Option<nat>)
    ensures match r
            case None => NoneIn(window, 0, |window|, magic)
            case Some(p) => FirstFrom(window, 0, p, magic) && p + |magic| <= |window|
  {
    var i := 0;
    while i + |magic| <= |window|
      invariant NoneIn(window, 0, i, magic)
    {
      if window[i..i + |magic|] == magic { return Some(i); }
      i := i + 1;
    }
    return None;
  }

  // A window onto the stream sees the occurrences that lie inside it, and only those.
  lemma WindowSees(s: seq<Byte>, from: nat, to: nat, i: nat, magic: seq<Byte>)
    requires from <= to <= |s|
    ensures MagicAt(s[from..to], i, magic) <==> from + i + |magic| <= to && MagicAt(s, from + i, magic)
  {
    if from + i + |magic| <= to {
      SliceOfWindow(s, from, to, i, i + |magic|);
    }
  }

  // A slice of a window is a slice of the stream.
  lemma SliceOfWindow(s: seq<Byte>, from: nat, to: nat, i: nat, j: nat)
    requires from <= to <= |s| && i <= j <= to - from
    ensures s[from..to][i..j] == s[from + i..from + j]
  {
    var inner, outer := s[from..to][i..j], s[from + i..from + j];
    assert forall k :: 0 <= k < j - i ==> inner[k] == s[from + i + k] == outer[k];
  }

  lemma WindowEmpty(s: seq<Byte>, from: nat, to: nat, magic: seq<Byte>)
    requires |magic| > 0 && from <= to <= |s| && NoneIn(s[from..to], 0, to - from, magic)
    ensures forall i: nat :: from <= i && i + |magic| <= to ==> !MagicAt(s, i, magic)
  {
    forall i: nat | from <= i && i + |magic| <= to ensures !MagicAt(s, i, magic) {
      WindowSees(s, from, to, i - from, magic);
      assert !MagicAt(s[from..to], i - from, magic);
    }
  }

  lemma WindowFirst(s: seq<Byte>, start: nat, from: nat, to: nat, p: nat, magic: seq<Byte>)
    requires start <= from <= to <= |s| && NoneIn(s, start, from, magic)
    requires FirstFrom(s[from..to], 0, p, magic)
    ensures FirstFrom(s, start, from + p, magic)
  {
    WindowSees(s, from, to, p, magic);
    forall i: nat | start <= i < from + p ensures !MagicAt(s, i, magic) {
      if from <= i {
        WindowSees(s, from, to, i - from, magic);
        assert !MagicAt(s[from..to], i - from, magic);
      }
    }
  }

  // ---- Reading a header ----

  // The first magic starts a whole header, within the first megabyte.
  ghost predicate InReach(s: seq<Byte>, start: nat, m: nat, magic: seq<Byte>) {
    FirstFrom(s, start, m, magic) && m + HEADER_SIZE <= |s| && m <= start + MAX_RESYNC_BYTES
  }

  // Where the reader stands after finding the header at `m`: right after it, or, if the chunk that
  // completed the magic reached further, at the end of that chunk.
  function StandsAt(s: seq<Byte>, arrives: nat -> nat, start: nat, m: nat): nat
    requires start + HEADER_SIZE <= |s|
  {
    Max(m + HEADER_SIZE, StopFrom(s, arrives, start + HEADER_SIZE, m + 4))
  }

  // What reading a header at `start` promises when the first occurrence of the magic is at `at`.
  ghost predicate HeaderFound(reader: Reader, start: nat, magic: seq<Byte>, header: seq<Byte>, at: nat)
    reads reader
  {
    var s := reader.stream;
    && FirstFrom(s, start, at, magic) && at + HEADER_SIZE <= |s| && header == s[at..at + HEADER_SIZE]
    && start + HEADER_SIZE <= |s| && reader.position == StandsAt(s, reader.arrives, start, at)
    && at < start + MAX_RESYNC_BYTES + CHUNK_SIZE
  }

  // Find the next header. It is the 24 bytes from the first occurrence of the magic, however the
  // stream arrives. Bytes that were read past it are lost: the reader then stands too far on.
  method ReadHeader(reader: Reader, magic: seq<Byte>) returns (r: Result<seq<Byte>, ReadError>, ghost at: nat)
    requires reader.Valid() && |magic| == 4
    modifies reader
    ensures reader.Valid()
    ensures var s, start := reader.stream, old(reader.position);
            match r
            case Ok(header) => HeaderFound(reader, start, magic, header, at)
            case Err(Eof) =>
              || |s| < start + HEADER_SIZE
              || NoneIn(s, start, |s|, magic)
              || (FirstFrom(s, start, at, magic) && |s| < at + HEADER_SIZE)
            case Err(LostSync(scanned)) =>
              scanned > MAX_RESYNC_BYTES && NoneIn(s, start, start + scanned, magic)
            case Err(TooLarge(_)) => false
    // A whole header within the first megabyte is always found.
    ensures forall m: nat :: InReach(reader.stream, old(reader.position), m, magic) ==>
              m == at && r == Ok(reader.stream[m..m + HEADER_SIZE])
    // In step, nothing but the header is read.
    ensures MagicAt(reader.stream, old(reader.position), magic)
            && old(reader.position) + HEADER_SIZE <= |reader.stream| ==>
              r.Ok? && at == old(reader.position) && reader.position == old(reader.position) + HEADER_SIZE
  {
    ghost var start := reader.position;
    var first := reader.ReadExact(HEADER_SIZE);
    at := start;
    if first.Err? { return first, at; }
    var header := first.value;
    assert header[..4] == reader.stream[start..start + 4];
    if header[..4] == magic { return Ok(header), at; }
    r, at := Resync(reader, magic, header, start);
  }

  // Reading on from `a` or from `b` stops alike, for what is sought at `least` or beyond.
  ghost predicate SameStops(s: seq<Byte>, arrives: nat -> nat, a: nat, b: nat, least: nat)
    requires a <= |s| && b <= |s|
  {
    forall l: nat :: least <= l ==> StopFrom(s, arrives, a, l) == StopFrom(s, arrives, b, l)
  }

  lemma NothingScanned(s: seq<Byte>, arrives: nat -> nat, start: nat, magic: seq<Byte>)
    requires start + HEADER_SIZE <= |s|
    ensures NoneIn(s, start, start, magic)
    ensures SameStops(s, arrives, start + HEADER_SIZE, start + HEADER_SIZE, start + 4)
  {
  }

  lemma StopsHere(s: seq<Byte>, arrives: nat -> nat, a: nat, b: nat, bound: nat, least: nat)
    requires a <= |s| && b <= |s| && SameStops(s, arrives, a, b, bound) && bound <= least <= b
    ensures StopFrom(s, arrives, a, least) == b
  {
    assert StopFrom(s, arrives, b, least) == b;
  }

  // Past what is read, one more chunk makes no difference.
  lemma StopsMove(s: seq<Byte>, arrives: nat -> nat, a: nat, b: nat, bound: nat, least: nat)
    requires a <= |s| && b < |s| && SameStops(s, arrives, a, b, bound) && bound <= least && b < least
    ensures SameStops(s, arrives, a, NextStop(s, arrives, b), least)
  {
    forall l: nat | least <= l ensures StopFrom(s, arrives, a, l) == StopFrom(s, arrives, NextStop(s, arrives, b), l) {
      assert StopFrom(s, arrives, b, l) == StopFrom(s, arrives, NextStop(s, arrives, b), l);
    }
  }

  // A window without the magic moves the search on, but for its last three bytes.
  lemma NoneFurther(s: seq<Byte>, start: nat, from: nat, to: nat, magic: seq<Byte>)
    requires |magic| == 4 && start <= from && from + 3 <= to <= |s|
    requires NoneIn(s, start, from, magic) && NoneIn(s[from..to], 0, to - from, magic)
    ensures NoneIn(s, start, to - 3, magic)
  {
    WindowEmpty(s, from, to, magic);
  }

  // Slide a window over the stream until the magic is in it.
  method Resync(reader: Reader, magic: seq<Byte>, header: seq<Byte>, ghost start: nat)
    returns (r: Result<seq<Byte>, ReadError>, ghost at: nat)
    requires reader.Valid() && |magic| == 4
    requires reader.position == start + HEADER_SIZE && header == reader.stream[start..start + HEADER_SIZE]
    modifies reader
    ensures reader.Valid()
    ensures var s := reader.stream;
            match r
            case Ok(header) => HeaderFound(reader, start, magic, header, at)
            case Err(Eof) =>
              NoneIn(s, start, |s|, magic) || (FirstFrom(s, start, at, magic) && |s| < at + HEADER_SIZE)
            case Err(LostSync(scanned)) =>
              scanned > MAX_RESYNC_BYTES && NoneIn(s, start, start + scanned, magic)
            case Err(TooLarge(_)) => false
  {
    hide MagicAt, NextStop, StopFrom, SameStops, FirstFrom, NoneIn, HeaderFound;
    var window, scanned: nat := header, 0;
    at := start;
    ghost var s, arrives := reader.stream, reader.arrives;
    NothingScanned(s, arrives, start, magic);
    while true
      invariant reader.Valid() && start + scanned + |window| == reader.position
      invariant window == s[start + scanned..reader.position]
      invariant 4 <= |window| <= CHUNK_SIZE + 3
      invariant scanned <= MAX_RESYNC_BYTES && NoneIn(s, start, start + scanned, magic)
      invariant SameStops(s, arrives, start + HEADER_SIZE, reader.position, start + scanned + 4)
      decreases |s| - reader.position
    {
      var found := FindMagic(window, magic);
      if found.Some? {
        var pos := found.value;
        WindowFirst(s, start, start + scanned, reader.position, pos, magic);
        StopsHere(s, arrives, start + HEADER_SIZE, reader.position, start + scanned + 4, start + scanned + pos + 4);
        r, at := TakeHeader(reader, window, pos, magic, start, start + scanned);
        return;
      }
      NoneFurther(s, start, start + scanned, reader.position, magic);
      ghost var bound := start + scanned + 4;
      scanned := scanned + (|window| - 3);
      if scanned > MAX_RESYNC_BYTES { return Err(LostSync(scanned)), at; }
      ghost var from := reader.position;
      var ended;
      ended, window := Slide(reader, window);
      if ended {
        EndReached(s, start, magic);
        return Err(Eof), at;
      }
      StopsMove(s, arrives, start + HEADER_SIZE, from, bound, start + scanned + 4);
    }
  }

  // Read a chunk more, and keep three bytes of the old window in front of it.
  method Slide(reader: Reader, window: seq<Byte>) returns (ended: bool, next: seq<Byte>)
    requires reader.Valid() && 3 <= |window| <= reader.position
    requires window == reader.stream[reader.position - |window|..reader.position]
    modifies reader
    ensures reader.Valid() && reader.position == NextStop(reader.stream, reader.arrives, old(reader.position))
    ensures ended <==> old(reader.position) == |reader.stream|
    ensures next == reader.stream[old(reader.position) - 3..reader.position] && |next| <= CHUNK_SIZE + 3
    ensures !ended ==> |next| >= 4 && reader.position > old(reader.position)
  {
    ghost var s, from := reader.stream, reader.position;
    var tail := window[|window| - 3..];
    SliceOfWindow(s, from - |window|, from, |window| - 3, |window|);
    assert tail == window[|window| - 3..|window|];
    var chunk := reader.ReadChunk();
    assert s[from - 3..from] + s[from..reader.position] == s[from - 3..reader.position];
    return chunk == [], tail + chunk;
  }

  // No occurrence starts in the last three bytes.
  lemma EndReached(s: seq<Byte>, start: nat, magic: seq<Byte>)
    requires |magic| == 4 && start + 3 <= |s| && NoneIn(s, start, |s| - 3, magic)
    ensures NoneIn(s, start, |s|, magic)
  {
  }

  // The magic is in the window, so this is the header.
  method TakeHeader(reader: Reader, window: seq<Byte>, pos: nat, magic: seq<Byte>, ghost start: nat, ghost from: nat)
    returns (r: Result<seq<Byte>, ReadError>, ghost at: nat)
    requires reader.Valid() && |magic| == 4 && start + HEADER_SIZE <= reader.position && pos <= |window|
    requires from + |window| == reader.position && window == reader.stream[from..reader.position]
    requires FirstFrom(reader.stream, start, from + pos, magic) && from + pos + 4 <= reader.position
    requires from + pos < start + MAX_RESYNC_BYTES + CHUNK_SIZE
    requires StopFrom(reader.stream, reader.arrives, start + HEADER_SIZE, from + pos + 4) == reader.position
    modifies reader
    ensures reader.Valid()
    ensures match r
            case Ok(header) => HeaderFound(reader, start, magic, header, at)
            case Err(e) =>
              e == Eof && FirstFrom(reader.stream, start, at, magic) && |reader.stream| < at + HEADER_SIZE
  {
    hide FirstFrom, StopFrom;
    r, at := CompleteHeader(reader, window, pos, magic, from);
  }

  // Take the header from the window, and what is missing of it from the stream.
  method CompleteHeader(reader: Reader, window: seq<Byte>, pos: nat, magic: seq<Byte>, ghost from: nat)
    returns (r: Result<seq<Byte>, ReadError>, ghost at: nat)
    requires reader.Valid() && |magic| == 4 && pos + 4 <= |window|
    requires from + |window| == reader.position && window == reader.stream[from..reader.position]
    modifies reader
    ensures reader.Valid() && at == from + pos
    ensures if at + HEADER_SIZE <= |reader.stream| then
              && r == Ok(reader.stream[at..at + HEADER_SIZE])
              && reader.position == Max(at + HEADER_SIZE, old(reader.position))
            else r == Err(Eof)
  {
    at := from + pos;
    var available := |window| - pos;
    if available >= HEADER_SIZE {
      r := Ok(window[pos..pos + HEADER_SIZE]);
      SliceOfWindow(reader.stream, from, reader.position, pos, pos + HEADER_SIZE);
    } else {
      ghost var position := reader.position;
      var rest := reader.ReadExact(HEADER_SIZE - available);
      if rest.Err? { return Err(Eof), at; }
      SliceOfWindow(reader.stream, from, position, pos, |window|);
      assert window[pos..] == window[pos..|window|];
      assert reader.stream[at..position] + reader.stream[position..at + HEADER_SIZE]
          == reader.stream[at..at + HEADER_SIZE];
      r := Ok(window[pos..] + rest.value);
    }
  }

  // ---- Reading a message ----

  // The payload length is little-endian, in bytes 16 to 19.
  function PayloadLength(header: seq<Byte>): nat
    requires |header| == HEADER_SIZE
  {
    header[16] as int + 256 * (header[17] as int + 256 * (header[18] as int + 256 * header[19] as int))
  }

  // The four bytes are those of the length, the least significant first.
  lemma PayloadLengthIs(header: seq<Byte>)
    requires |header| == HEADER_SIZE
    ensures
      var n := PayloadLength(header);
      && header[16] as int == n % 256 && header[17] as int == n / 256 % 256
      && header[18] as int == n / 256 / 256 % 256 && header[19] as int == n / 256 / 256 / 256
  {
    LowByte(header[16] as int, header[17] as int + 256 * (header[18] as int + 256 * header[19] as int));
    LowByte(header[17] as int, header[18] as int + 256 * header[19] as int);
    LowByte(header[18] as int, header[19] as int);
  }

  lemma LowByte(low: nat, high: nat)
    requires low < 256
    ensures (low + 256 * high) % 256 == low && (low + 256 * high) / 256 == high
  {
  }

  // The header at `m` and the payload read from `from` on.
  function MessageFrom(s: seq<Byte>, m: nat, from: nat): Result<seq<Byte>, ReadError>
    requires m + HEADER_SIZE <= |s|
  {
    var size := PayloadLength(s[m..m + HEADER_SIZE]);
    if size > MAX_MESSAGE_SIZE then Err(TooLarge(size))
    else if from + size > |s| then Err(Eof)
    else Ok(s[m..m + HEADER_SIZE] + s[from..from + size])
  }

  // Read the header and then the payload, from where the reader stands. Right after the header, the
  // message is the consecutive bytes from the first occurrence of the magic on.
  method ReadMessage(reader: Reader, magic: seq<Byte>) returns (r: Result<seq<Byte>, ReadError>, ghost at: nat)
    requires reader.Valid() && |magic| == 4
    modifies reader
    ensures reader.Valid()
    ensures r.Ok? ==>
              var s, start := reader.stream, old(reader.position);
              && FirstFrom(s, start, at, magic) && at + HEADER_SIZE <= |s| && start + HEADER_SIZE <= |s|
              && var from, size := StandsAt(s, reader.arrives, start, at), PayloadLength(s[at..at + HEADER_SIZE]);
              && r == MessageFrom(s, at, from) && reader.position == from + size
              && (from == at + HEADER_SIZE ==> r.value == s[at..at + HEADER_SIZE + size])
    // Whatever follows a whole header within the first megabyte, the outcome is this one.
    ensures forall m: nat :: InReach(reader.stream, old(reader.position), m, magic) ==>
              r == MessageFrom(reader.stream, m, StandsAt(reader.stream, reader.arrives, old(reader.position), m))
  {
    hide FirstFrom, NoneIn, StandsAt;
    ghost var s, start := reader.stream, reader.position;
    var header;
    header, at := ReadHeader(reader, magic);
    if header.Err? { return header, at; }
    var size := PayloadLength(header.value);
    if size > MAX_MESSAGE_SIZE { return Err(TooLarge(size)), at; }
    ghost var from := reader.position;
    var payload := reader.ReadExact(size);
    if payload.Err? { return payload, at; }
    if from == at + HEADER_SIZE {
      assert s[at..from] + s[from..from + size] == s[at..from + size];
    }
    return Ok(header.value + payload.value), at;
  }

  // ---- A payload that is lost ----

  const MAGIC: seq<Byte> := [0xf9, 0xbe, 0xb4, 0xd9]

  // A message with one byte of payload, after 24 bytes of something else.
  const STREAM: seq<Byte> :=
    [0, 0, 0, 0, 0, 0, 0, 0, 0, 0, 0, 0, 0, 0, 0, 0, 0, 0, 0, 0, 0, 0, 0, 0]
    + MAGIC + [0, 0, 0, 0, 0, 0, 0, 0, 0, 0, 0, 0, 1, 0, 0, 0, 0, 0, 0, 0, 7]

  lemma StreamHasMessage()
    ensures |STREAM| == 49 && FirstFrom(STREAM, 0, 24, MAGIC)
    ensures MessageFrom(STREAM, 24, 48) == Ok(STREAM[24..49])
  {
    assert STREAM[24..28] == MAGIC;
    forall i: nat | i < 24 ensures !MagicAt(STREAM, i, MAGIC) {
      assert STREAM[i] != MAGIC[0];
    }
    assert STREAM[24..48] + STREAM[48..49] == STREAM[24..49];
  }

  // The whole message has arrived, but its payload is in the chunk that completed the magic, and the
  // reader asks for it after the end.
  method PayloadLost() returns (r: Result<seq<Byte>, ReadError>)
    ensures MessageFrom(STREAM, 24, 48).Ok? && r == Err(Eof)
  {
    StreamHasMessage();
    var arrives := (at: nat) => CHUNK_SIZE as nat;
    var reader := new Reader(STREAM, arrives);
    assert StopFrom(STREAM, arrives, 49, 28) == 49;
    assert NextStop(STREAM, arrives, 24) == 49;
    assert StandsAt(STREAM, arrives, 0, 24) == 49;
    ghost var at;
    r, at := ReadMessage(reader, MAGIC);
  }
}
