/**
 The encrypted backup stream (packages/privacy/backup.ts): a header, numbered authenticated frames
 of at most one MiB, and an authenticated empty frame that marks the end.
 */
module Backup {
  import opened Base
  import opened Cipher

  const CHUNK: nat := 1048576
  const FRAME_LIMIT: nat := 0xffff_ffff

  /** 'ASTRABK1' */
  const MAGIC: Bytes := [65, 83, 84, 82, 65, 66, 75, 49]

  /** Key versions are ASCII identifiers, so a version is its bytes. */
  datatype Ring = Ring(active: Bytes, keys: map<Bytes, Key>)

  predicate RingOk(ring: Ring) {
    ring.active in ring.keys && forall id :: id in ring.keys ==> 1 <= |id| <= 24
  }

  datatype Error =
    | TruncatedBackup | InvalidHeader | MissingKey | InvalidFrame | NotAuthentic | TrailingData | FrameLimit

  datatype Outcome = Done | Failed(error: Error)

  /** What a generator yielded, in order, and how it ended. */
  datatype Yielded = Yielded(chunks: seq<Bytes>, outcome: Outcome)

  function Concat(chunks: seq<Bytes>): Bytes {
    if |chunks| == 0 then [] else chunks[0] + Concat(chunks[1..])
  }

  function Be32(n: nat): (r: Bytes)
    ensures |r| == 4
  {
    [n / 256 / 256 / 256 % 256, n / 256 / 256 % 256, n / 256 % 256, n % 256]
  }

  function FromBe32(b: Bytes): nat
    requires |b| == 4
  {
    (((b[0] as int) * 256 + b[1]) * 256 + b[2]) * 256 + b[3]
  }

  // The writer.

  function Header(version: Bytes, seed: Bytes): Bytes
    requires 1 <= |version| <= 24
  {
    MAGIC + [|version|] + version + seed
  }

  function Nonce(seed: Bytes, n: nat): Bytes {
    seed + Be32(n)
  }

  function Aad(header: Bytes, seed: Bytes, n: nat, length: Bytes): Bytes {
    header + Nonce(seed, n) + length
  }

  function SealFrame(a: Aead, key: Key, header: Bytes, seed: Bytes, n: nat, data: Bytes): Sealed {
    a.seal(key, Nonce(seed, n), Aad(header, seed, n, Be32(|data|)), data)
  }

  function Frame(a: Aead, key: Key, header: Bytes, seed: Bytes, n: nat, data: Bytes): Bytes {
    var sealed := SealFrame(a, key, header, seed, n, data);
    Be32(|data|) + sealed.text + sealed.tag
  }

  function Frames(a: Aead, key: Key, header: Bytes, seed: Bytes, pieces: seq<Bytes>): (r: seq<Bytes>)
    ensures |r| == |pieces|
  {
    seq(|pieces|, i requires 0 <= i < |pieces| => Frame(a, key, header, seed, i, pieces[i]))
  }

  /** One source chunk cut into frames of at most CHUNK bytes; an empty chunk gives none. */
  function Pieces(input: Bytes): seq<Bytes>
    decreases |input|
  {
    if |input| == 0 then []
    else if |input| <= CHUNK then [input]
    else [input[..CHUNK]] + Pieces(input[CHUNK..])
  }

  function AllPieces(source: seq<Bytes>): seq<Bytes> {
    if |source| == 0 then [] else AllPieces(source[..|source| - 1]) + Pieces(source[|source| - 1])
  }

  /** Everything that gets sealed: the source in pieces, then the empty end frame. */
  function Plain(source: seq<Bytes>): seq<Bytes> {
    AllPieces(source) + [[]]
  }

  function Encrypted(a: Aead, ring: Ring, seed: Bytes, source: seq<Bytes>): Yielded
    requires RingOk(ring)
  {
    var key, header, plain := ring.keys[ring.active], Header(ring.active, seed), Plain(source);
    if |plain| <= FRAME_LIMIT then Yielded([header] + Frames(a, key, header, seed, plain), Done)
    else Yielded([header] + Frames(a, key, header, seed, plain[..FRAME_LIMIT]), Failed(FrameLimit))
  }

  lemma FramesAppend(a: Aead, key: Key, header: Bytes, seed: Bytes, pieces: seq<Bytes>, data: Bytes)
    ensures Frames(a, key, header, seed, pieces + [data]) ==
      Frames(a, key, header, seed, pieces) + [Frame(a, key, header, seed, |pieces|, data)]
  {
  }

  lemma AllPiecesStep(source: seq<Bytes>, i: nat)
    requires i < |source|
    ensures AllPieces(source[..i + 1]) == AllPieces(source[..i]) + Pieces(source[i])
  {
    assert source[..i + 1][..i] == source[..i];
  }

  /** What has been yielded once `plain` is sealed. */
  ghost predicate Written(a: Aead, ring: Ring, seed: Bytes, plain: seq<Bytes>, chunks: seq<Bytes>, sequence: nat)
    requires RingOk(ring)
  {
    && sequence == |plain| <= FRAME_LIMIT
    && chunks == [Header(ring.active, seed)]
                 + Frames(a, ring.keys[ring.active], Header(ring.active, seed), seed, plain)
  }

  lemma WriteNext(a: Aead, ring: Ring, seed: Bytes, plain: seq<Bytes>, chunks: seq<Bytes>, sequence: nat, data: Bytes)
    requires RingOk(ring) && Written(a, ring, seed, plain, chunks, sequence) && sequence < FRAME_LIMIT
    ensures var frame := Frame(a, ring.keys[ring.active], Header(ring.active, seed), seed, sequence, data);
      Written(a, ring, seed, plain + [data], chunks + [frame], sequence + 1)
  {
    FramesAppend(a, ring.keys[ring.active], Header(ring.active, seed), seed, plain, data);
  }

  /** The inner loop: one source chunk goes out in pieces, unless the frame numbers run out. */
  method EncryptChunk(a: Aead, ring: Ring, seed: Bytes, ghost plain: seq<Bytes>, before: seq<Bytes>, first: nat,
                      input: Bytes) returns (chunks: seq<Bytes>, sequence: nat, ok: bool)
    requires RingOk(ring) && Written(a, ring, seed, plain, before, first)
    ensures ok ==> Written(a, ring, seed, plain + Pieces(input), chunks, sequence)
    ensures !ok ==> |plain + Pieces(input)| > FRAME_LIMIT
    ensures !ok ==> Written(a, ring, seed, (plain + Pieces(input))[..FRAME_LIMIT], chunks, sequence)
  {
    chunks, sequence, ok := before, first, true;
    ghost var done := plain;
    ghost var all := plain + Pieces(input);
    var at := 0;
    assert input[0..] == input;
    while at < |input|
      invariant 0 <= at <= |input|
      invariant done + Pieces(input[at..]) == all
      invariant Written(a, ring, seed, done, chunks, sequence)
    {
      var end := Min(at + CHUNK, |input|);
      var data := input[at..end];
      MovePiece(done, input, at);
      if sequence >= FRAME_LIMIT {
        assert all[..|done|] == done;
        return chunks, sequence, false;
      }
      WriteNext(a, ring, seed, done, chunks, sequence, data);
      chunks := chunks + [Frame(a, ring.keys[ring.active], Header(ring.active, seed), seed, sequence, data)];
      done, sequence, at := done + [data], sequence + 1, end;
    }
    assert done + [] == done;
  }

  method EncryptBackup(a: Aead, ring: Ring, seed: Bytes, source: seq<Bytes>) returns (out: Yielded)
    requires RingOk(ring)
    ensures out == Encrypted(a, ring, seed, source)
  {
    var header := Header(ring.active, seed);
    var chunks := [header];
    var sequence: nat := 0;
    for i := 0 to |source|
      invariant Written(a, ring, seed, AllPieces(source[..i]), chunks, sequence)
    {
      AllPiecesStep(source, i);
      var ok;
      chunks, sequence, ok := EncryptChunk(a, ring, seed, AllPieces(source[..i]), chunks, sequence, source[i]);
      if !ok {
        PiecesGrow(source, i + 1);
        assert AllPieces(source[..i + 1])[..FRAME_LIMIT] == Plain(source)[..FRAME_LIMIT];
        return Yielded(chunks, Failed(FrameLimit));
      }
    }
    assert source[..|source|] == source;
    if sequence >= FRAME_LIMIT {
      assert Plain(source)[..FRAME_LIMIT] == AllPieces(source);
      return Yielded(chunks, Failed(FrameLimit));
    }
    WriteNext(a, ring, seed, AllPieces(source), chunks, sequence, []);
    chunks := chunks + [Frame(a, ring.keys[ring.active], header, seed, sequence, [])];
    out := Yielded(chunks, Done);
  }

  lemma FirstPiece(input: Bytes, at: nat)
    requires at < |input|
    ensures var end := Min(at + CHUNK, |input|); Pieces(input[at..]) == [input[at..end]] + Pieces(input[end..])
  {
    var rest := input[at..];
    if |rest| <= CHUNK {
      assert rest == input[at..|input|];
    } else {
      assert rest[..CHUNK] == input[at..at + CHUNK] && rest[CHUNK..] == input[at + CHUNK..];
    }
  }

  lemma MovePiece(done: seq<Bytes>, input: Bytes, at: nat)
    requires at < |input|
    ensures var end := Min(at + CHUNK, |input|);
      && done + Pieces(input[at..]) == done + [input[at..end]] + Pieces(input[end..])
      && |done| < |done + Pieces(input[at..])|
  {
    FirstPiece(input, at);
  }

  lemma {:induction false} PiecesGrow(source: seq<Bytes>, i: nat)
    requires i <= |source|
    ensures AllPieces(source[..i]) <= AllPieces(source)
    decreases |source|
  {
    if i == |source| {
      assert source[..i] == source;
    } else {
      PiecesGrow(source[..|source| - 1], i);
      assert source[..|source| - 1][..i] == source[..i];
    }
  }

  // The reader, as a function of the whole byte string.

  function Prepend(chunk: Bytes, rest: Yielded): Yielded {
    rest.(chunks := [chunk] + rest.chunks)
  }

  /** One turn of the reading loop. */
  datatype Turn = Data(plain: Bytes) | End | Stop(error: Error)

  function FrameBytes(rest: Bytes): nat
    requires |rest| >= 4
  {
    4 + FromBe32(rest[..4]) + TAG_BYTES
  }

  /** The text and tag behind the length field. */
  function FrameSealed(rest: Bytes): Sealed
    requires |rest| >= 4 && |rest| >= FrameBytes(rest)
  {
    var size := FromBe32(rest[..4]);
    Sealed(rest[4..4 + size], rest[4 + size..4 + size + TAG_BYTES])
  }

  function FrameAt(a: Aead, key: Key, header: Bytes, seed: Bytes, n: nat, rest: Bytes): (turn: Turn)
    ensures !turn.Stop? ==> |rest| >= 4 && FrameBytes(rest) <= |rest|
  {
    if |rest| < 4 then Stop(TruncatedBackup)
    else
      var size := FromBe32(rest[..4]);
      if size > CHUNK || n >= FRAME_LIMIT then Stop(InvalidFrame)
      else if |rest| < FrameBytes(rest) then Stop(TruncatedBackup)
      else
        match a.open(key, Nonce(seed, n), Aad(header, seed, n, rest[..4]), FrameSealed(rest))
        case None => Stop(NotAuthentic)
        case Some(plain) => if size == 0 then End else Data(plain)
  }

  function ParseFrames(a: Aead, key: Key, header: Bytes, seed: Bytes, n: nat, rest: Bytes): Yielded
    decreases |rest|
  {
    match FrameAt(a, key, header, seed, n, rest)
    case Stop(error) => Yielded([], Failed(error))
    case End => Yielded([], if |rest| > FrameBytes(rest) then Failed(TrailingData) else Done)
    case Data(plain) => Prepend(plain, ParseFrames(a, key, header, seed, n + 1, rest[FrameBytes(rest)..]))
  }

  function Parse(a: Aead, ring: Ring, bytes: Bytes): Yielded {
    if |bytes| < 9 then Yielded([], Failed(TruncatedBackup))
    else if bytes[..8] != MAGIC || bytes[8] < 1 || bytes[8] > 24 then Yielded([], Failed(InvalidHeader))
    else
      var seedAt := 9 + bytes[8];
      var headerEnd := seedAt + 8;
      if |bytes| < headerEnd then Yielded([], Failed(TruncatedBackup))
      else if bytes[9..seedAt] !in ring.keys then Yielded([], Failed(MissingKey))
      else
        ParseFrames(a, ring.keys[bytes[9..seedAt]], bytes[..headerEnd], bytes[seedAt..headerEnd], 0, bytes[headerEnd..])
  }

  // The reader, as it runs: chunks are pulled from the source only while a read needs more bytes.

  /** The number of leading chunks it takes to have n bytes. */
  function Needed(chunks: seq<Bytes>, n: int): nat {
    if n <= 0 || |chunks| == 0 then 0 else 1 + Needed(chunks[1..], n - |chunks[0]|)
  }

  lemma {:induction false} ConcatAppend(xs: seq<Bytes>, ys: seq<Bytes>)
    ensures Concat(xs + ys) == Concat(xs) + Concat(ys)
  {
    if |xs| == 0 {
      assert xs + ys == ys;
    } else {
      calc {
        Concat(xs + ys);
        { assert (xs + ys)[0] == xs[0] && (xs + ys)[1..] == xs[1..] + ys; }
        xs[0] + Concat(xs[1..] + ys);
        { ConcatAppend(xs[1..], ys); }
        xs[0] + (Concat(xs[1..]) + Concat(ys));
        Concat(xs) + Concat(ys);
      }
    }
  }

  /** Reading k chunks is enough exactly when they hold n bytes, or when there are no more. */
  lemma {:induction false} NeededExact(chunks: seq<Bytes>, k: nat, n: int)
    requires k <= |chunks|
    ensures Needed(chunks, n) <= k <==> k == |chunks| || |Concat(chunks[..k])| >= n
    decreases k
  {
    if k > 0 {
      assert chunks[..k] == [chunks[0]] + chunks[1..][..k - 1];
      NeededExact(chunks[1..], k - 1, n - |chunks[0]|);
    } else {
      NeededBounded(chunks, n);
    }
  }

  lemma {:induction false} NeededBounded(chunks: seq<Bytes>, n: int)
    ensures Needed(chunks, n) <= |chunks|
  {
    if n > 0 && |chunks| > 0 {
      NeededBounded(chunks[1..], n - |chunks[0]|);
    }
  }

  lemma {:induction false} ConcatSplit(chunks: seq<Bytes>, k: nat)
    requires k <= |chunks|
    ensures Concat(chunks) == Concat(chunks[..k]) + Concat(chunks[k..])
  {
    ConcatAppend(chunks[..k], chunks[k..]);
    assert chunks == chunks[..k] + chunks[k..];
  }

  predicate EndsInEmptyChunk(source: seq<Bytes>) {
    |source| > 0 && source[|source| - 1] == []
  }

  /** All bytes have been read: is every chunk used up? Only if the last one was worth pulling. */
  lemma {:induction false} AllPulled(source: seq<Bytes>)
    ensures Needed(source, |Concat(source)|) == |source| <==> !EndsInEmptyChunk(source)
  {
    NeededBounded(source, |Concat(source)|);
    if |source| > 0 {
      var k := |source| - 1;
      NeededExact(source, k, |Concat(source)|);
      ConcatSplit(source, k);
      assert source[k..] == [source[k]];
      assert Concat(source[k..]) == source[k];
    }
  }

  /** The end of a chunked source is seen only if its last chunk gets pulled. */
  function AtEnd(whole: Yielded, source: seq<Bytes>): Yielded {
    if whole.outcome == Done && EndsInEmptyChunk(source) then whole.(outcome := Failed(TrailingData)) else whole
  }

  /** The chunk iterator with the bytes pulled from it and not yet used. */
  class ByteReader {
    const source: seq<Bytes>
    var next: nat
    var pending: Bytes

    ghost predicate Valid()
      reads this
    {
      && next <= |source|
      && |Rest()| <= |Concat(source)|
      && next == Needed(source, |Concat(source)| - |Rest()|)
    }

    ghost function Rest(): Bytes
      reads this
    {
      pending + if next <= |source| then Concat(source[next..]) else []
    }

    constructor (source: seq<Bytes>)
      ensures this.source == source && Valid() && Rest() == Concat(source)
    {
      this.source := source;
      next := 0;
      pending := [];
      new;
      assert source[0..] == source;
    }

    method Pull()
      requires next < |source|
      modifies this
      ensures next == old(next) + 1 && Rest() == old(Rest())
    {
      assert source[next..][1..] == source[next + 1..];
      assert pending + (source[next] + Concat(source[next + 1..])) ==
        pending + source[next] + Concat(source[next + 1..]);
      pending, next := pending + source[next], next + 1;
    }

    lemma Finished()
      requires Valid()
      ensures |pending| == 0 && next == |source| <==> Rest() == [] && !EndsInEmptyChunk(source)
    {
      AllPulled(source);
    }

    method Take(size: nat) returns (got: Option<Bytes>)
      requires Valid()
      modifies this
      ensures got.Some? <==> |old(Rest())| >= size
      ensures got.Some? ==>
        Valid() && got.value == old(Rest())[..size] && Rest() == old(Rest())[size..]
    {
      ghost var rest, target := Rest(), |Concat(source)| - |Rest()| + size;
      NeededMonotone(source, target - size, target);
      while |pending| < size
        invariant next <= |source| && Rest() == rest
        invariant next <= Needed(source, target)
        decreases |source| - next
      {
        if next == |source| {
          return None;
        }
        PullIsNeeded(source, next, target);
        Pull();
      }
      EnoughPulled(source, next, target);
      got := Some(pending[..size]);
      pending := pending[size..];
    }
  }

  lemma {:induction false} NeededMonotone(chunks: seq<Bytes>, m: int, n: int)
    requires m <= n
    ensures Needed(chunks, m) <= Needed(chunks, n)
  {
    var k := Needed(chunks, n);
    NeededBounded(chunks, n);
    NeededBounded(chunks, m);
    NeededExact(chunks, k, n);
    NeededExact(chunks, k, m);
  }

  /** A read still short of bytes pulls a chunk it needs. */
  lemma {:induction false} PullIsNeeded(source: seq<Bytes>, next: nat, target: int)
    requires next < |source| && next <= Needed(source, target)
    requires |Concat(source)| - |Concat(source[next..])| < target
    ensures next + 1 <= Needed(source, target)
  {
    ConcatSplit(source, next);
    NeededExact(source, next, target);
  }

  /** A read that has its bytes has pulled no chunk too many. */
  lemma {:induction false} EnoughPulled(source: seq<Bytes>, next: nat, target: int)
    requires next <= |source| && next <= Needed(source, target)
    requires |Concat(source)| - |Concat(source[next..])| >= target
    ensures next == Needed(source, target)
  {
    ConcatSplit(source, next);
    NeededExact(source, next, target);
  }

  /** Three reads in a row are three neighbouring slices. */
  lemma ThreeReads(bytes: Bytes, i: nat, j: nat, k: nat)
    requires |bytes| >= i + j + k
    ensures bytes[i..][..j] == bytes[i..i + j]
    ensures bytes[i..][j..][..k] == bytes[i + j..i + j + k]
    ensures bytes[i..][j..][k..] == bytes[i + j + k..]
    ensures bytes[..i] + bytes[i..i + j] + bytes[i + j..i + j + k] == bytes[..i + j + k]
  {
  }

  method NextFrame(a: Aead, key: Key, header: Bytes, seed: Bytes, n: nat, reader: ByteReader) returns (turn: Turn)
    requires reader.Valid()
    modifies reader
    ensures turn == FrameAt(a, key, header, seed, n, old(reader.Rest()))
    ensures !turn.Stop? ==> reader.Valid() && reader.Rest() == old(reader.Rest())[FrameBytes(old(reader.Rest()))..]
  {
    ghost var rest := reader.Rest();
    var length := reader.Take(4);
    if length.None? { return Stop(TruncatedBackup); }
    var size := FromBe32(length.value);
    if size > CHUNK || n >= FRAME_LIMIT { return Stop(InvalidFrame); }
    var encrypted := reader.Take(size);
    if encrypted.None? { return Stop(TruncatedBackup); }
    var tag := reader.Take(TAG_BYTES);
    if tag.None? { return Stop(TruncatedBackup); }
    ThreeReads(rest, 4, size, TAG_BYTES);
    var plain := a.open(key, Nonce(seed, n), Aad(header, seed, n, length.value), Sealed(encrypted.value, tag.value));
    if plain.None? { return Stop(NotAuthentic); }
    turn := if size == 0 then End else Data(plain.value);
  }

  datatype Start = Start(header: Bytes, version: Bytes, seed: Bytes)

  method ReadHeader(ring: Ring, reader: ByteReader) returns (start: Option<Start>, error: Error)
    requires reader.Valid()
    modifies reader
    ensures var bytes := old(reader.Rest());
      if start.None? then forall a :: Parse(a, ring, bytes) == Yielded([], Failed(error))
      else
        && reader.Valid() && start.value.version in ring.keys
        && forall a :: Parse(a, ring, bytes) ==
             ParseFrames(a, ring.keys[start.value.version], start.value.header, start.value.seed, 0, reader.Rest())
  {
    ghost var bytes := reader.Rest();
    start, error := None, TruncatedBackup;
    var prefix := reader.Take(9);
    if prefix.None? { return; }
    if prefix.value[..8] != MAGIC || prefix.value[8] < 1 || prefix.value[8] > 24 { return None, InvalidHeader; }
    var version := reader.Take(prefix.value[8]);
    if version.None? { return; }
    var seed := reader.Take(8);
    if seed.None? { return; }
    var header := prefix.value + version.value + seed.value;
    ThreeReads(bytes, 9, prefix.value[8], 8);
    if version.value !in ring.keys { return None, MissingKey; }
    start := Some(Start(header, version.value, seed.value));
  }

  function Append(chunks: seq<Bytes>, rest: Yielded): Yielded {
    rest.(chunks := chunks + rest.chunks)
  }

  lemma AppendPrepend(chunks: seq<Bytes>, plain: Bytes, rest: Yielded)
    ensures Append(chunks, Prepend(plain, rest)) == Append(chunks + [plain], rest)
  {
    assert chunks + ([plain] + rest.chunks) == chunks + [plain] + rest.chunks;
  }

  method ReadFrames(a: Aead, key: Key, header: Bytes, seed: Bytes, reader: ByteReader) returns (out: Yielded)
    requires reader.Valid()
    modifies reader
    ensures out == AtEnd(ParseFrames(a, key, header, seed, 0, old(reader.Rest())), reader.source)
  {
    ghost var whole := ParseFrames(a, key, header, seed, 0, reader.Rest());
    var sequence := 0;
    var chunks := [];
    while true
      invariant reader.Valid()
      invariant whole == Append(chunks, ParseFrames(a, key, header, seed, sequence, reader.Rest()))
      decreases |reader.Rest()|
    {
      var turn := NextFrame(a, key, header, seed, sequence, reader);
      match turn
      case Stop(error) =>
        return Yielded(chunks, Failed(error));
      case End =>
        reader.Finished();
        if |reader.pending| > 0 || reader.next < |reader.source| { return Yielded(chunks, Failed(TrailingData)); }
        return Yielded(chunks, Done);
      case Data(plain) =>
        AppendPrepend(chunks, plain, ParseFrames(a, key, header, seed, sequence + 1, reader.Rest()));
        chunks, sequence := chunks + [plain], sequence + 1;
    }
  }

  /** Streaming refines parsing the whole byte string, however it is cut into chunks. */
  method DecryptBackup(a: Aead, ring: Ring, source: seq<Bytes>) returns (out: Yielded)
    ensures out == AtEnd(Parse(a, ring, Concat(source)), source)
  {
    var reader := new ByteReader(source);
    var start, error := ReadHeader(ring, reader);
    if start.None? { return Yielded([], Failed(error)); }
    out := ReadFrames(a, ring.keys[start.value.version], start.value.header, start.value.seed, reader);
  }
}
