/** What the backup format guarantees: round trip, prefix-freedom, distinct nonces and no forgery. */
module BackupFormat {
  import opened Base
  import opened Cipher
  import opened Backup

  // Numbers and pieces.

  lemma Be32RoundTrip(n: nat)
    requires n < 0x1_0000_0000
    ensures FromBe32(Be32(n)) == n
  {
  }

  predicate DataPieces(pieces: seq<Bytes>) {
    forall i :: 0 <= i < |pieces| ==> 0 < |pieces[i]| <= CHUNK
  }

  lemma {:induction false} PiecesRejoin(input: Bytes)
    ensures DataPieces(Pieces(input)) && Concat(Pieces(input)) == input
    decreases |input|
  {
    if |input| > CHUNK {
      PiecesRejoin(input[CHUNK..]);
      assert Pieces(input)[1..] == Pieces(input[CHUNK..]);
    } else if |input| > 0 {
      assert Concat([input]) == input + Concat([]);
    }
  }

  lemma {:induction false} ConcatLast(chunks: seq<Bytes>)
    requires |chunks| > 0
    ensures Concat(chunks) == Concat(chunks[..|chunks| - 1]) + chunks[|chunks| - 1]
  {
    var n := |chunks| - 1;
    var last := [chunks[n]];
    ConcatSplit(chunks, n);
    assert chunks[n..] == last;
    assert Concat(last) == chunks[n] + Concat(last[1..]);
  }

  lemma DataAppend(xs: seq<Bytes>, ys: seq<Bytes>)
    requires DataPieces(xs) && DataPieces(ys)
    ensures DataPieces(xs + ys)
  {
  }

  /** Cutting into frames loses nothing, whatever chunks the source comes in. */
  lemma {:induction false} AllPiecesRejoin(source: seq<Bytes>)
    ensures DataPieces(AllPieces(source)) && Concat(AllPieces(source)) == Concat(source)
  {
    if |source| > 0 {
      var n := |source| - 1;
      var before, last := AllPieces(source[..n]), Pieces(source[n]);
      AllPiecesRejoin(source[..n]);
      PiecesRejoin(source[n]);
      DataAppend(before, last);
      calc {
        Concat(AllPieces(source));
        Concat(before + last);
        { ConcatAppend(before, last); }
        Concat(before) + Concat(last);
        Concat(source[..n]) + source[n];
        { ConcatLast(source); }
        Concat(source);
      }
    }
  }

  // One frame.

  /** A sealed frame with anything behind it reads back as its piece and leaves the rest. */
  lemma FrameReadsBack(a: Aead, key: Key, header: Bytes, seed: Bytes, n: nat, data: Bytes, more: Bytes)
    requires AeadOk(a) && n < FRAME_LIMIT && |data| <= CHUNK
    ensures var rest := Frame(a, key, header, seed, n, data) + more;
      && FrameAt(a, key, header, seed, n, rest) == (if |data| == 0 then End else Data(data))
      && FrameBytes(rest) == |Frame(a, key, header, seed, n, data)|
      && rest[FrameBytes(rest)..] == more
  {
    var sealed := SealFrame(a, key, header, seed, n, data);
    var rest := Frame(a, key, header, seed, n, data) + more;
    Be32RoundTrip(|data|);
    assert rest[..4] == Be32(|data|);
    assert rest[4..4 + |data|] == sealed.text;
    assert rest[4 + |data|..4 + |data| + TAG_BYTES] == sealed.tag;
  }

  /** A frame cut short is a truncation, wherever the cut falls. */
  lemma CutFrameTruncated(a: Aead, key: Key, header: Bytes, seed: Bytes, n: nat, data: Bytes, k: nat)
    requires AeadOk(a) && n < FRAME_LIMIT && |data| <= CHUNK
    requires k < |Frame(a, key, header, seed, n, data)|
    ensures FrameAt(a, key, header, seed, n, Frame(a, key, header, seed, n, data)[..k]) == Stop(TruncatedBackup)
  {
    var cut := Frame(a, key, header, seed, n, data)[..k];
    Be32RoundTrip(|data|);
    if k >= 4 {
      assert cut[..4] == Be32(|data|);
    }
  }

  // All frames.

  function FramesFrom(a: Aead, key: Key, header: Bytes, seed: Bytes, pieces: seq<Bytes>, n: nat): Bytes
    requires n <= |pieces|
  {
    Concat(Frames(a, key, header, seed, pieces)[n..])
  }

  lemma FramesFromStep(a: Aead, key: Key, header: Bytes, seed: Bytes, pieces: seq<Bytes>, n: nat)
    requires n < |pieces|
    ensures FramesFrom(a, key, header, seed, pieces, n) ==
      Frame(a, key, header, seed, n, pieces[n]) + FramesFrom(a, key, header, seed, pieces, n + 1)
  {
    var frames := Frames(a, key, header, seed, pieces);
    assert frames[n..] == [frames[n]] + frames[n + 1..];
  }

  /** Reading a complete stream gives the pieces; bytes behind the end frame are an error. */
  lemma {:induction false} FramesReadBack(a: Aead, key: Key, header: Bytes, seed: Bytes, data: seq<Bytes>, n: nat,
                                          more: Bytes)
    requires AeadOk(a) && DataPieces(data) && n <= |data| < FRAME_LIMIT
    ensures ParseFrames(a, key, header, seed, n, FramesFrom(a, key, header, seed, data + [[]], n) + more) ==
      Yielded(data[n..], if |more| == 0 then Done else Failed(TrailingData))
    decreases |data| - n
  {
    var pieces := data + [[]];
    FramesFromStep(a, key, header, seed, pieces, n);
    var frame, later := Frame(a, key, header, seed, n, pieces[n]), FramesFrom(a, key, header, seed, pieces, n + 1);
    assert frame + later + more == frame + (later + more);
    FrameReadsBack(a, key, header, seed, n, pieces[n], later + more);
    if n < |data| {
      FramesReadBack(a, key, header, seed, data, n + 1, more);
      assert data[n..] == [data[n]] + data[n + 1..];
    } else {
      assert later == [];
    }
  }

  /** A truncation after some of the pieces from n on. */
  predicate StopsShort(read: Yielded, pieces: seq<Bytes>, n: nat)
    requires n <= |pieces|
  {
    read.outcome == Failed(TruncatedBackup) && read.chunks <= pieces[n..]
  }

  lemma StopsOneEarlier(read: Yielded, pieces: seq<Bytes>, n: nat)
    requires n < |pieces| && StopsShort(read, pieces, n + 1)
    ensures StopsShort(Prepend(pieces[n], read), pieces, n)
  {
    PrefixCons(pieces, n, read.chunks);
  }

  /** One data frame and what follows it. */
  lemma {:induction false} DataFrameThen(a: Aead, key: Key, header: Bytes, seed: Bytes, n: nat, data: Bytes,
                                         more: Bytes)
    requires AeadOk(a) && n < FRAME_LIMIT && 0 < |data| <= CHUNK
    ensures ParseFrames(a, key, header, seed, n, Frame(a, key, header, seed, n, data) + more) ==
      Prepend(data, ParseFrames(a, key, header, seed, n + 1, more))
  {
    FrameReadsBack(a, key, header, seed, n, data, more);
  }

  lemma {:induction false} StopsAfterFrame(a: Aead, key: Key, header: Bytes, seed: Bytes, pieces: seq<Bytes>, n: nat,
                                           cut: Bytes)
    requires AeadOk(a) && n < |pieces| <= FRAME_LIMIT && 0 < |pieces[n]| <= CHUNK
    requires StopsShort(ParseFrames(a, key, header, seed, n + 1, cut), pieces, n + 1)
    ensures var rest := Frame(a, key, header, seed, n, pieces[n]) + cut;
      StopsShort(ParseFrames(a, key, header, seed, n, rest), pieces, n)
  {
    DataFrameThen(a, key, header, seed, n, pieces[n], cut);
    StopsOneEarlier(ParseFrames(a, key, header, seed, n + 1, cut), pieces, n);
  }

  /** Reading data frames cut anywhere, or complete but without an end frame, is a truncation. */
  lemma {:induction false} CutFramesTruncated(a: Aead, key: Key, header: Bytes, seed: Bytes, pieces: seq<Bytes>, n: nat,
                                              k: nat)
    requires AeadOk(a) && n <= |pieces| <= FRAME_LIMIT
    requires forall i :: 0 <= i < |pieces| ==> |pieces[i]| <= CHUNK
    requires forall i :: 0 <= i < |pieces| - 1 ==> 0 < |pieces[i]|
    requires k <= |FramesFrom(a, key, header, seed, pieces, n)|
    requires k == |FramesFrom(a, key, header, seed, pieces, n)| ==> DataPieces(pieces)
    ensures var cut := FramesFrom(a, key, header, seed, pieces, n)[..k];
      StopsShort(ParseFrames(a, key, header, seed, n, cut), pieces, n)
    decreases |pieces| - n
  {
    if n < |pieces| {
      FramesFromStep(a, key, header, seed, pieces, n);
      var frame, later := Frame(a, key, header, seed, n, pieces[n]), FramesFrom(a, key, header, seed, pieces, n + 1);
      TakeAcross(frame, later, k);
      if k < |frame| {
        CutFrameTruncated(a, key, header, seed, n, pieces[n], k);
      } else {
        var cut := later[..k - |frame|];
        assert |pieces[n]| > 0;
        assert FramesFrom(a, key, header, seed, pieces, n)[..k] == frame + cut;
        CutFramesTruncated(a, key, header, seed, pieces, n + 1, k - |frame|);
        StopsAfterFrame(a, key, header, seed, pieces, n, cut);
      }
    }
  }

  lemma TakeAcross(x: Bytes, y: Bytes, k: nat)
    requires k <= |x + y|
    ensures (x + y)[..k] == if k < |x| then x[..k] else x + y[..k - |x|]
  {
  }

  lemma PrefixCons(pieces: seq<Bytes>, n: nat, chunks: seq<Bytes>)
    requires n < |pieces| && chunks <= pieces[n + 1..]
    ensures [pieces[n]] + chunks <= pieces[n..]
    ensures chunks == pieces[n + 1..] ==> [pieces[n]] + chunks == pieces[n..]
  {
    assert pieces[n..] == [pieces[n]] + pieces[n + 1..];
  }

  // Whole streams.

  /** The pieces that are actually sealed: all of them, unless the frame numbers run out. */
  function SealedPieces(source: seq<Bytes>): seq<Bytes> {
    if |Plain(source)| <= FRAME_LIMIT then Plain(source) else Plain(source)[..FRAME_LIMIT]
  }

  /** Every byte the writer yields, in order. */
  function Stream(a: Aead, ring: Ring, seed: Bytes, source: seq<Bytes>): Bytes
    requires RingOk(ring)
  {
    Concat(Encrypted(a, ring, seed, source).chunks)
  }

  /** Later rings may add and activate keys as long as they keep the version a backup was written under. */
  predicate Retains(later: Ring, ring: Ring)
    requires RingOk(ring)
  {
    ring.active in later.keys && later.keys[ring.active] == ring.keys[ring.active]
  }

  lemma {:induction false} HeaderReads(a: Aead, ring: Ring, version: Bytes, seed: Bytes, body: Bytes)
    requires 1 <= |version| <= 24 && |seed| == 8 && version in ring.keys
    ensures Parse(a, ring, Header(version, seed) + body) ==
      ParseFrames(a, ring.keys[version], Header(version, seed), seed, 0, body)
  {
    var header := Header(version, seed);
    var bytes := header + body;
    assert bytes[..8] == MAGIC && bytes[8] == |version|;
    assert bytes[9..9 + |version|] == version;
    assert bytes[9 + |version|..17 + |version|] == seed;
    assert bytes[..17 + |version|] == header && bytes[17 + |version|..] == body;
  }

  lemma CutHeaderTruncated(a: Aead, ring: Ring, version: Bytes, seed: Bytes, k: nat)
    requires 1 <= |version| <= 24 && |seed| == 8 && k < |Header(version, seed)|
    ensures Parse(a, ring, Header(version, seed)[..k]) == Yielded([], Failed(TruncatedBackup))
  {
    var cut := Header(version, seed)[..k];
    if k >= 9 {
      assert cut[..8] == MAGIC && cut[8] == |version|;
    }
  }

  lemma StreamShape(a: Aead, ring: Ring, seed: Bytes, source: seq<Bytes>)
    requires RingOk(ring)
    ensures var header := Header(ring.active, seed);
      Stream(a, ring, seed, source) ==
        header + FramesFrom(a, ring.keys[ring.active], header, seed, SealedPieces(source), 0)
  {
    var chunks := Encrypted(a, ring, seed, source).chunks;
    assert chunks[1..] == chunks[1..][0..];
  }

  lemma {:induction false} BodyReadsBack(a: Aead, key: Key, header: Bytes, seed: Bytes, source: seq<Bytes>, more: Bytes)
    requires AeadOk(a) && |Plain(source)| <= FRAME_LIMIT
    ensures ParseFrames(a, key, header, seed, 0, FramesFrom(a, key, header, seed, Plain(source), 0) + more) ==
      Yielded(AllPieces(source), if |more| == 0 then Done else Failed(TrailingData))
  {
    AllPiecesRejoin(source);
    FramesReadBack(a, key, header, seed, AllPieces(source), 0, more);
    assert AllPieces(source)[0..] == AllPieces(source);
  }

  lemma Regroup(x: Bytes, y: Bytes, z: Bytes)
    ensures x + y + z == x + (y + z)
  {
  }

  /** A finished stream with anything appended: the source comes out, and the excess is refused. */
  lemma {:induction false} ExtensionRefused(a: Aead, ring: Ring, later: Ring, seed: Bytes, source: seq<Bytes>,
                                            more: Bytes)
    requires AeadOk(a) && RingOk(ring) && Retains(later, ring) && |seed| == 8
    requires Encrypted(a, ring, seed, source).outcome == Done
    ensures Parse(a, later, Stream(a, ring, seed, source) + more) ==
      Yielded(AllPieces(source), if |more| == 0 then Done else Failed(TrailingData))
  {
    var key, header := ring.keys[ring.active], Header(ring.active, seed);
    var body := FramesFrom(a, key, header, seed, Plain(source), 0);
    StreamShape(a, ring, seed, source);
    Regroup(header, body, more);
    HeaderReads(a, later, ring.active, seed, body + more);
    BodyReadsBack(a, key, header, seed, source, more);
  }

  /**
   Decrypting a backup gives back the source bytes, however the source and the encrypted bytes are cut
   into chunks, as long as the reader gets no empty chunk at the end.
   */
  lemma {:induction false} RoundTrip(a: Aead, ring: Ring, later: Ring, seed: Bytes, source: seq<Bytes>,
                                     received: seq<Bytes>)
    requires AeadOk(a) && RingOk(ring) && Retains(later, ring) && |seed| == 8
    requires Encrypted(a, ring, seed, source).outcome == Done
    requires Concat(received) == Stream(a, ring, seed, source)
    ensures var read := AtEnd(Parse(a, later, Concat(received)), received);
      && Concat(read.chunks) == Concat(source)
      && (read.outcome == Done <==> !EndsInEmptyChunk(received))
  {
    ExtensionRefused(a, ring, later, seed, source, []);
    assert Stream(a, ring, seed, source) + [] == Stream(a, ring, seed, source);
    AllPiecesRejoin(source);
  }

  lemma {:induction false} ConcatPrefix(xs: seq<Bytes>, ys: seq<Bytes>)
    requires xs <= ys
    ensures Concat(xs) <= Concat(ys)
  {
    ConcatAppend(xs, ys[|xs|..]);
    assert ys == xs + ys[|xs|..];
  }

  lemma SealedPiecesShape(source: seq<Bytes>)
    ensures var pieces := SealedPieces(source);
      && |pieces| <= FRAME_LIMIT && pieces <= Plain(source)
      && (forall i :: 0 <= i < |pieces| ==> |pieces[i]| <= CHUNK)
      && (forall i :: 0 <= i < |pieces| - 1 ==> 0 < |pieces[i]|)
      && (|Plain(source)| > FRAME_LIMIT ==> DataPieces(pieces))
  {
    AllPiecesRejoin(source);
  }

  lemma {:induction false} PlainRejoins(source: seq<Bytes>, chunks: seq<Bytes>)
    requires chunks <= Plain(source)
    ensures Concat(chunks) <= Concat(source)
  {
    ConcatPrefix(chunks, Plain(source));
    ConcatLast(Plain(source));
    assert Plain(source)[..|Plain(source)| - 1] == AllPieces(source);
    AllPiecesRejoin(source);
  }

  lemma {:induction false} CutBodyTruncated(a: Aead, key: Key, header: Bytes, seed: Bytes, source: seq<Bytes>, k: nat)
    requires AeadOk(a) && k <= |FramesFrom(a, key, header, seed, SealedPieces(source), 0)|
    requires k == |FramesFrom(a, key, header, seed, SealedPieces(source), 0)| ==> |Plain(source)| > FRAME_LIMIT
    ensures var body := FramesFrom(a, key, header, seed, SealedPieces(source), 0);
      var read := ParseFrames(a, key, header, seed, 0, body[..k]);
      && read.outcome == Failed(TruncatedBackup)
      && Concat(read.chunks) <= Concat(source)
  {
    var pieces := SealedPieces(source);
    SealedPiecesShape(source);
    CutFramesTruncated(a, key, header, seed, pieces, 0, k);
    assert pieces[0..] == pieces;
    PlainRejoins(source, ParseFrames(a, key, header, seed, 0, FramesFrom(a, key, header, seed, pieces, 0)[..k]).chunks);
  }

  /** A stream cut anywhere before its end is refused, and what came out before is a prefix of the source. */
  lemma {:induction false} PrefixRefused(a: Aead, ring: Ring, later: Ring, seed: Bytes, source: seq<Bytes>, k: nat)
    requires AeadOk(a) && RingOk(ring) && Retains(later, ring) && |seed| == 8
    requires k <= |Stream(a, ring, seed, source)|
    requires k == |Stream(a, ring, seed, source)| ==> Encrypted(a, ring, seed, source).outcome != Done
    ensures var read := Parse(a, later, Stream(a, ring, seed, source)[..k]);
      && read.outcome == Failed(TruncatedBackup)
      && Concat(read.chunks) <= Concat(source)
  {
    var key, header := ring.keys[ring.active], Header(ring.active, seed);
    var all := Stream(a, ring, seed, source);
    var body := FramesFrom(a, key, header, seed, SealedPieces(source), 0);
    StreamShape(a, ring, seed, source);
    if k < |header| {
      assert all[..k] == header[..k];
      CutHeaderTruncated(a, later, ring.active, seed, k);
    } else {
      var cut := body[..k - |header|];
      assert all[..k] == header + cut;
      assert Parse(a, later, all[..k]) == ParseFrames(a, key, header, seed, 0, cut) by {
        HeaderReads(a, later, ring.active, seed, cut);
      }
      CutBodyTruncated(a, key, header, seed, source, k - |header|);
    }
  }

  /** What the reader makes of more bytes behind an accepted stream, whoever wrote it and whatever the cipher. */
  function WithMore(read: Yielded, more: Bytes): Yielded {
    read.(outcome := if more == [] then Done else Failed(TrailingData))
  }

  lemma FrameWithMore(a: Aead, key: Key, header: Bytes, seed: Bytes, n: nat, rest: Bytes, more: Bytes)
    requires !FrameAt(a, key, header, seed, n, rest).Stop?
    ensures FrameAt(a, key, header, seed, n, rest + more) == FrameAt(a, key, header, seed, n, rest)
    ensures FrameBytes(rest + more) == FrameBytes(rest)
    ensures (rest + more)[FrameBytes(rest)..] == rest[FrameBytes(rest)..] + more
  {
    assert (rest + more)[..4] == rest[..4];
    assert FrameSealed(rest + more) == FrameSealed(rest);
  }

  lemma {:induction false} FramesWithMore(a: Aead, key: Key, header: Bytes, seed: Bytes, n: nat, rest: Bytes,
                                          more: Bytes)
    requires ParseFrames(a, key, header, seed, n, rest).outcome == Done
    ensures ParseFrames(a, key, header, seed, n, rest + more) ==
      WithMore(ParseFrames(a, key, header, seed, n, rest), more)
    decreases |rest|
  {
    FrameWithMore(a, key, header, seed, n, rest, more);
    if FrameAt(a, key, header, seed, n, rest).Data? {
      FramesWithMore(a, key, header, seed, n + 1, rest[FrameBytes(rest)..], more);
    }
  }

  lemma HeaderWithMore(bytes: Bytes, more: Bytes, k: nat)
    requires |bytes| >= 17 + k
    ensures var all := bytes + more;
      && all[..8] == bytes[..8] && all[8] == bytes[8] && all[9..9 + k] == bytes[9..9 + k]
      && all[..17 + k] == bytes[..17 + k] && all[9 + k..17 + k] == bytes[9 + k..17 + k]
      && all[17 + k..] == bytes[17 + k..] + more
  {
  }

  /** An accepted stream with anything behind it yields the same and ends in a trailing-data error. */
  lemma {:induction false} AcceptedThenMore(a: Aead, ring: Ring, bytes: Bytes, more: Bytes)
    requires Parse(a, ring, bytes).outcome == Done
    ensures Parse(a, ring, bytes + more) == WithMore(Parse(a, ring, bytes), more)
  {
    var k: nat := bytes[8];
    HeaderWithMore(bytes, more, k);
    FramesWithMore(a, ring.keys[bytes[9..9 + k]], bytes[..17 + k], bytes[9 + k..17 + k], 0, bytes[17 + k..], more);
  }

  /** No accepted stream is a proper prefix of another, for every cipher and every key ring. */
  lemma {:induction false} PrefixFree(a: Aead, ring: Ring, bytes: Bytes, bytes': Bytes)
    requires Parse(a, ring, bytes).outcome == Done && Parse(a, ring, bytes').outcome == Done && bytes <= bytes'
    ensures bytes == bytes'
  {
    AcceptedThenMore(a, ring, bytes, bytes'[|bytes|..]);
    assert bytes + bytes'[|bytes|..] == bytes';
  }

  /** So two backups one of which begins with the other are the same backup. */
  lemma {:induction false} WrittenPrefixFree(a: Aead, ring: Ring, seed: Bytes, source: seq<Bytes>, ring': Ring,
                                             seed': Bytes, source': seq<Bytes>)
    requires AeadOk(a) && RingOk(ring) && RingOk(ring') && |seed| == |seed'| == 8 && ring.keys == ring'.keys
    requires Encrypted(a, ring, seed, source).outcome == Done && Encrypted(a, ring', seed', source').outcome == Done
    requires Stream(a, ring, seed, source) <= Stream(a, ring', seed', source')
    ensures Stream(a, ring, seed, source) == Stream(a, ring', seed', source') && Concat(source) == Concat(source')
  {
    var s, s' := Stream(a, ring, seed, source), Stream(a, ring', seed', source');
    assert s + [] == s && s' + [] == s';
    ExtensionRefused(a, ring, ring', seed, source, []);
    ExtensionRefused(a, ring', ring', seed', source', []);
    PrefixFree(a, ring', s, s');
    AllPiecesRejoin(source);
    AllPiecesRejoin(source');
  }

  // What the reader refuses.

  /** The stream begins with the header some writer would have written for this version and seed. */
  predicate BeginsWith(bytes: Bytes, version: Bytes, seed: Bytes) {
    1 <= |version| <= 24 && |seed| == 8 && Header(version, seed) <= bytes
  }

  /** Nine bytes that can begin a header: the magic number and the length of a version. */
  predicate MayBegin(bytes: Bytes) {
    |bytes| >= 9 && bytes[..8] == [65, 83, 84, 82, 65, 66, 75, 49] && 1 <= bytes[8] <= 24
  }

  lemma HeadersMayBegin(version: Bytes, seed: Bytes)
    requires 1 <= |version| <= 24
    ensures MayBegin(Header(version, seed)) && Header(version, seed)[8] == |version|
  {
  }

  /** A whole header is followed by frames if the ring has its key, and refused for want of it if not. */
  lemma {:induction false} HeaderDecides(a: Aead, ring: Ring, bytes: Bytes, version: Bytes, seed: Bytes)
    requires BeginsWith(bytes, version, seed)
    ensures Parse(a, ring, bytes) ==
      if version in ring.keys
      then ParseFrames(a, ring.keys[version], Header(version, seed), seed, 0, bytes[17 + |version|..])
      else Yielded([], Failed(MissingKey))
  {
    var header := Header(version, seed);
    assert bytes == header + bytes[|header|..];
    assert bytes[..8] == header[..8] && bytes[8] == header[8] == |version|;
    assert bytes[9..9 + |version|] == header[9..9 + |version|] == version;
    assert bytes[9 + |version|..17 + |version|] == header[9 + |version|..17 + |version|] == seed;
    assert bytes[..17 + |version|] == header;
  }

  /** Without a whole header the stream is cut short if it may still become one, and no backup at all if not. */
  lemma {:induction false} NoHeaderRefused(a: Aead, ring: Ring, bytes: Bytes)
    requires forall version, seed :: !BeginsWith(bytes, version, seed)
    ensures Parse(a, ring, bytes) ==
      Yielded([], Failed(if |bytes| >= 9 && !MayBegin(bytes) then InvalidHeader else TruncatedBackup))
  {
    if MayBegin(bytes) && |bytes| >= 17 + bytes[8] {
      var k: nat := bytes[8];
      ParsedHeader(bytes, k);
      assert BeginsWith(bytes, bytes[9..9 + k], bytes[9 + k..17 + k]);
    }
  }

  /** A frame that says it is longer than a MiB, or comes after all frame numbers, is refused before it is read. */
  lemma FrameRefused(a: Aead, key: Key, header: Bytes, seed: Bytes, n: nat, rest: Bytes)
    requires |rest| >= 4 && (FromBe32(rest[..4]) > 1024 * 1024 || n >= 0xffff_ffff)
    ensures FrameAt(a, key, header, seed, n, rest) == Stop(InvalidFrame)
  {
  }

  // Nonces.

  /** Two frames share a nonce only if they share the seed and the frame number. */
  lemma NoncesDistinct(seed: Bytes, i: nat, seed': Bytes, j: nat)
    requires |seed| == |seed'| && i < 0x1_0000_0000 && j < 0x1_0000_0000
    ensures Nonce(seed, i) == Nonce(seed', j) <==> seed == seed' && i == j
  {
    if Nonce(seed, i) == Nonce(seed', j) {
      assert Nonce(seed, i)[..|seed|] == seed && Nonce(seed', j)[..|seed|] == seed';
      assert Nonce(seed, i)[|seed|..] == Be32(i) && Nonce(seed', j)[|seed|..] == Be32(j);
      Be32RoundTrip(i);
      Be32RoundTrip(j);
    }
  }

  /** Within one backup every frame is sealed under its own nonce. */
  lemma NoncesNeverRepeat(a: Aead, ring: Ring, seed: Bytes, source: seq<Bytes>, i: nat, j: nat)
    requires RingOk(ring) && 0 < i < j < |Encrypted(a, ring, seed, source).chunks|
    ensures |Plain(source)| >= j && Nonce(seed, i - 1) != Nonce(seed, j - 1)
    ensures Encrypted(a, ring, seed, source).chunks[j] ==
      Frame(a, ring.keys[ring.active], Header(ring.active, seed), seed, j - 1, Plain(source)[j - 1])
  {
    NoncesDistinct(seed, i - 1, seed, j - 1);
  }

  // Forgery.

  /** One backup some holder of the key has written. */
  datatype Honest = Honest(key: Key, version: Bytes, seed: Bytes, source: seq<Bytes>)

  predicate HonestOk(h: Honest) {
    1 <= |h.version| <= 24 && |h.seed| == 8
  }

  function HonestHeader(h: Honest): Bytes
    requires HonestOk(h)
  {
    Header(h.version, h.seed)
  }

  function Rest(a: Aead, h: Honest, n: nat): Bytes
    requires HonestOk(h) && n <= |SealedPieces(h.source)|
  {
    FramesFrom(a, h.key, HonestHeader(h), h.seed, SealedPieces(h.source), n)
  }

  /** Every backup ever written; version and seed together never repeat under one key. */
  ghost predicate LogOk(a: Aead, log: seq<Honest>) {
    && (forall i :: 0 <= i < |log| ==> HonestOk(log[i]))
    && (forall i, j :: 0 <= i < j < |log| && log[i].key == log[j].key ==> HonestHeader(log[i]) != HonestHeader(log[j]))
    && KeepsLengths(a)
  }

  ghost predicate SealedBy(a: Aead, h: Honest, n: nat, key: Key, nonce: Bytes, aad: Bytes, sealed: Sealed) {
    && HonestOk(h) && n < |SealedPieces(h.source)| && key == h.key
    && nonce == Nonce(h.seed, n)
    && var p := SealedPieces(h.source)[n];
       && aad == Aad(HonestHeader(h), h.seed, n, Be32(|p|))
       && sealed == a.seal(key, nonce, aad, p)
       && a.open(key, nonce, aad, sealed) == Some(p)
  }

  /** An ideal cipher opens only what was sealed while writing one of the logged backups. */
  ghost predicate Ideal(a: Aead, log: seq<Honest>) {
    forall key, nonce, aad, sealed {:trigger a.open(key, nonce, aad, sealed)} ::
      a.open(key, nonce, aad, sealed).Some? ==>
        exists i, n :: 0 <= i < |log| && SealedBy(a, log[i], n, key, nonce, aad, sealed)
  }

  /** What opens under a frame's nonce and header was sealed as the frame of that number of one logged backup. */
  lemma OpenedByLog(a: Aead, log: seq<Honest>, key: Key, header: Bytes, seed: Bytes, n: nat, length: Bytes,
                    sealed: Sealed) returns (i: nat)
    requires Ideal(a, log) && |seed| == 8 && |length| == 4 && n < FRAME_LIMIT
    requires forall k :: 0 <= k < |log| ==> HonestOk(log[k])
    requires a.open(key, Nonce(seed, n), Aad(header, seed, n, length), sealed).Some?
    ensures i < |log| && key == log[i].key && header == HonestHeader(log[i]) && seed == log[i].seed
    ensures n < |SealedPieces(log[i].source)|
    ensures var p := SealedPieces(log[i].source)[n];
      && length == Be32(|p|) && sealed == SealFrame(a, key, header, seed, n, p)
      && a.open(key, Nonce(seed, n), Aad(header, seed, n, length), sealed) == Some(p)
  {
    var m: nat;
    i, m :| 0 <= i < |log| && SealedBy(a, log[i], m, key, Nonce(seed, n), Aad(header, seed, n, length), sealed);
    var h := log[i];
    assert m < 0x1_0000_0000;
    NoncesDistinct(seed, n, h.seed, m);
    SameAad(header, HonestHeader(h), Nonce(seed, n), length, Be32(|SealedPieces(h.source)[n]|));
  }

  /** A frame that opens is, byte for byte, the frame of that number of one logged backup. */
  lemma OwnerOfFrame(a: Aead, log: seq<Honest>, key: Key, header: Bytes, seed: Bytes, n: nat, rest: Bytes)
      returns (i: nat)
    requires LogOk(a, log) && Ideal(a, log) && |seed| == 8
    requires !FrameAt(a, key, header, seed, n, rest).Stop?
    ensures i < |log| && key == log[i].key && header == HonestHeader(log[i]) && seed == log[i].seed
    ensures n < |SealedPieces(log[i].source)|
    ensures var p := SealedPieces(log[i].source)[n];
      && rest[..FrameBytes(rest)] == Frame(a, key, header, seed, n, p)
      && FrameAt(a, key, header, seed, n, rest) == (if |p| == 0 then End else Data(p))
  {
    i := OpenedByLog(a, log, key, header, seed, n, rest[..4], FrameSealed(rest));
    FrameSplits(rest);
    SizeOfSealed(a, key, header, seed, n, SealedPieces(log[i].source)[n], FrameSealed(rest));
  }

  lemma SizeOfSealed(a: Aead, key: Key, header: Bytes, seed: Bytes, n: nat, data: Bytes, sealed: Sealed)
    requires KeepsLengths(a) && sealed == SealFrame(a, key, header, seed, n, data)
    ensures |sealed.text| == |data|
  {
  }

  lemma FrameSplits(rest: Bytes)
    requires |rest| >= 4 && |rest| >= FrameBytes(rest)
    ensures rest[..FrameBytes(rest)] == rest[..4] + FrameSealed(rest).text + FrameSealed(rest).tag
    ensures |FrameSealed(rest).text| == FromBe32(rest[..4])
  {
    ThreeReads(rest, 4, FromBe32(rest[..4]), TAG_BYTES);
  }

  lemma SameAad(header: Bytes, header': Bytes, nonce: Bytes, length: Bytes, length': Bytes)
    requires |length| == |length'| && header + nonce + length == header' + nonce + length'
    ensures header == header' && length == length'
  {
    var n := |header|;
    assert n == |header'|;
    assert (header + nonce + length)[..n] == header && (header' + nonce + length')[..n] == header';
    assert (header + nonce + length)[n + |nonce|..] == length && (header' + nonce + length')[n + |nonce|..] == length';
  }

  /** The only frame that can follow n frames of a logged backup is its next one. */
  lemma NextIsOwn(a: Aead, log: seq<Honest>, i: nat, n: nat, rest: Bytes)
    requires LogOk(a, log) && Ideal(a, log) && i < |log| && n <= |AllPieces(log[i].source)|
    requires !FrameAt(a, log[i].key, HonestHeader(log[i]), log[i].seed, n, rest).Stop?
    ensures var h := log[i];
      var turn := FrameAt(a, h.key, HonestHeader(h), h.seed, n, rest);
      && n < |SealedPieces(h.source)|
      && (rest[FrameBytes(rest)..] == Rest(a, h, n + 1) ==> rest == Rest(a, h, n))
      && (if turn.End? then n == |AllPieces(h.source)| && Rest(a, h, n + 1) == []
          else n < |AllPieces(h.source)| && turn == Data(AllPieces(h.source)[n]))
  {
    var h := log[i];
    var k := OwnerOfFrame(a, log, h.key, HonestHeader(h), h.seed, n, rest);
    assert k == i;
    AllPiecesRejoin(h.source);
    FramesFromStep(a, h.key, HonestHeader(h), h.seed, SealedPieces(h.source), n);
    assert rest == rest[..FrameBytes(rest)] + rest[FrameBytes(rest)..];
  }

  /** What reading gives after n frames of a logged backup: some of its next pieces, or all and nothing else. */
  ghost predicate ReadsOwn(a: Aead, h: Honest, n: nat, rest: Bytes, read: Yielded)
    requires HonestOk(h) && n <= |AllPieces(h.source)|
  {
    && read.chunks <= AllPieces(h.source)[n..]
    && (read.outcome == Done ==>
          && |Plain(h.source)| <= FRAME_LIMIT
          && read.chunks == AllPieces(h.source)[n..]
          && rest == Rest(a, h, n))
  }

  lemma ReadsOneMore(a: Aead, h: Honest, n: nat, rest: Bytes, later: Bytes, read: Yielded)
    requires HonestOk(h) && n < |AllPieces(h.source)| && n < |SealedPieces(h.source)|
    requires ReadsOwn(a, h, n + 1, later, read)
    requires later == Rest(a, h, n + 1) ==> rest == Rest(a, h, n)
    ensures ReadsOwn(a, h, n, rest, Prepend(AllPieces(h.source)[n], read))
  {
    PrefixCons(AllPieces(h.source), n, read.chunks);
  }

  lemma {:induction false} ReadsTheEnd(a: Aead, log: seq<Honest>, i: nat, n: nat, rest: Bytes)
    requires LogOk(a, log) && Ideal(a, log) && i < |log| && n <= |AllPieces(log[i].source)|
    requires !FrameAt(a, log[i].key, HonestHeader(log[i]), log[i].seed, n, rest).Data?
    ensures var h := log[i];
      ReadsOwn(a, h, n, rest, ParseFrames(a, h.key, HonestHeader(h), h.seed, n, rest))
  {
    if FrameAt(a, log[i].key, HonestHeader(log[i]), log[i].seed, n, rest).End? {
      NextIsOwn(a, log, i, n, rest);
    }
  }

  /** Whatever follows a logged header and n of its frames, only its own further frames are ever opened. */
  lemma {:induction false} OnlyOwnFrames(a: Aead, log: seq<Honest>, i: nat, n: nat, rest: Bytes)
    requires LogOk(a, log) && Ideal(a, log) && i < |log| && n <= |AllPieces(log[i].source)|
    ensures var h := log[i];
      ReadsOwn(a, h, n, rest, ParseFrames(a, h.key, HonestHeader(h), h.seed, n, rest))
    decreases |rest|
  {
    var h := log[i];
    var turn := FrameAt(a, h.key, HonestHeader(h), h.seed, n, rest);
    if turn.Data? {
      var later := rest[FrameBytes(rest)..];
      NextIsOwn(a, log, i, n, rest);
      OnlyOwnFrames(a, log, i, n + 1, later);
      ReadsOneMore(a, h, n, rest, later, ParseFrames(a, h.key, HonestHeader(h), h.seed, n + 1, later));
    } else {
      ReadsTheEnd(a, log, i, n, rest);
    }
  }

  function HonestRing(h: Honest): Ring {
    Ring(h.version, map[h.version := h.key])
  }

  lemma SameHeader(version: Bytes, seed: Bytes, version': Bytes, seed': Bytes)
    requires 1 <= |version| <= 24 && 1 <= |version'| <= 24 && |seed| == |seed'| == 8
    requires Header(version, seed) == Header(version', seed')
    ensures version == version' && seed == seed'
  {
    assert Header(version, seed)[9..9 + |version|] == version && Header(version', seed')[9..9 + |version'|] == version';
    assert Header(version, seed)[9 + |version|..] == seed && Header(version', seed')[9 + |version'|..] == seed';
  }

  lemma ParsedHeader(bytes: Bytes, k: nat)
    requires |bytes| >= 17 + k && 1 <= k <= 24 && bytes[..8] == MAGIC && bytes[8] == k
    ensures bytes[..17 + k] == Header(bytes[9..9 + k], bytes[9 + k..17 + k])
  {
  }

  /**
   With an ideal cipher, bytes nobody sealed never come out: what is yielded from any input is a prefix
   of one logged backup, and only that backup's original stream is accepted in full.
   */
  lemma OnlyOriginalsAccepted(a: Aead, ring: Ring, log: seq<Honest>, bytes: Bytes) returns (i: nat)
    requires LogOk(a, log) && Ideal(a, log)
    requires Parse(a, ring, bytes).outcome == Done || |Parse(a, ring, bytes).chunks| > 0
    ensures i < |log|
    ensures var h := log[i]; var read := Parse(a, ring, bytes);
      && h.version in ring.keys && ring.keys[h.version] == h.key
      && read.chunks <= AllPieces(h.source)
      && (read.outcome == Done ==>
            && Concat(read.chunks) == Concat(h.source)
            && Encrypted(a, HonestRing(h), h.seed, h.source).outcome == Done
            && bytes == Stream(a, HonestRing(h), h.seed, h.source))
  {
    var k: nat := bytes[8];
    var version, seed, rest := bytes[9..9 + k], bytes[9 + k..17 + k], bytes[17 + k..];
    ParsePastHeader(a, ring, bytes);
    i := OwnerOfFrame(a, log, ring.keys[version], Header(version, seed), seed, 0, rest);
    var h := log[i];
    SameHeader(version, seed, h.version, h.seed);
    OnlyOwnFrames(a, log, i, 0, rest);
    StreamShape(a, HonestRing(h), h.seed, h.source);
    AllPiecesRejoin(h.source);
    assert AllPieces(h.source)[0..] == AllPieces(h.source);
  }

  lemma {:induction false} ParsePastHeader(a: Aead, ring: Ring, bytes: Bytes)
    requires Parse(a, ring, bytes).outcome == Done || |Parse(a, ring, bytes).chunks| > 0
    ensures |bytes| >= 9 && 1 <= bytes[8] <= 24
    ensures var k: nat := bytes[8];
      && |bytes| >= 17 + k && bytes[9..9 + k] in ring.keys
      && var version, seed, rest := bytes[9..9 + k], bytes[9 + k..17 + k], bytes[17 + k..];
         && bytes == Header(version, seed) + rest
         && Parse(a, ring, bytes) == ParseFrames(a, ring.keys[version], Header(version, seed), seed, 0, rest)
         && !FrameAt(a, ring.keys[version], Header(version, seed), seed, 0, rest).Stop?
  {
    var k: nat := bytes[8];
    ParsedHeader(bytes, k);
    assert bytes == bytes[..17 + k] + bytes[17 + k..];
  }
}
