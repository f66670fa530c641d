/**
 The RIFF/WAVE reader (crates/vinpst-audio/src/lib.rs) and writer
 (crates/vinpst-asr/src/remote.rs) for signed 16-bit PCM.
 */
module WavCodec {
  import opened Wrappers
  import opened Bytes
  import opened Pcm

  const RIFF: seq<byte> := [0x52, 0x49, 0x46, 0x46]
  const WAVE: seq<byte> := [0x57, 0x41, 0x56, 0x45]
  const FMT: seq<byte> := [0x66, 0x6D, 0x74, 0x20]
  const DATA: seq<byte> := [0x64, 0x61, 0x74, 0x61]

  // ---- Reader ----

  datatype Format = Format(
    tag: u16, channels: u16, sampleRateHz: u32, byteRate: u32, blockAlign: u16, bitsPerSample: u16)

  function ReadFormat(chunk: seq<byte>): Format
    requires |chunk| >= 16
  {
    Format(ReadLeU16(chunk[0..2]), ReadLeU16(chunk[2..4]), ReadLeU32(chunk[4..8]), ReadLeU32(chunk[8..12]),
           ReadLeU16(chunk[12..14]), ReadLeU16(chunk[14..16]))
  }

  function CheckFormat(f: Format): (r: Result<PcmSpec, AudioError>)
    ensures r.Ok? ==> r.value.Valid() && r.value == PcmSpec(f.sampleRateHz, f.channels)
  {
    if f.tag != 1 then Err(InvalidWav("only PCM format tag 1 is supported"))
    else if f.bitsPerSample != 16 then Err(InvalidWav("only 16-bit samples are supported"))
    else match PcmSpec(f.sampleRateHz, f.channels).Validate()
      case Err(e) => Err(e)
      case Ok(spec) =>
        var expectedBlockAlign := spec.channels as int * 2;
        if expectedBlockAlign >= 0x1_0000 then Err(InvalidWav("block align overflow"))
        else if f.blockAlign != expectedBlockAlign then Err(InvalidWav("block align does not match channel count"))
        else
          var expectedByteRate := Times(expectedBlockAlign, spec.sampleRateHz);
          if expectedByteRate >= 0x1_0000_0000 then Err(InvalidWav("byte rate overflow"))
          else if f.byteRate != expectedByteRate then Err(InvalidWav("byte rate does not match sample format"))
          else Ok(spec)
  }

  function ParseWavFmt(chunk: seq<byte>): (r: Result<PcmSpec, AudioError>)
    ensures r.Ok? ==> r.value.Valid()
  {
    if |chunk| < 16 then Err(InvalidWav("fmt chunk is too short")) else CheckFormat(ReadFormat(chunk))
  }

  /** The last `fmt ` and the last `data` chunk seen so far. */
  datatype Found = Found(format: Option<PcmSpec>, data: Option<seq<byte>>)

  function Absorb(id: seq<byte>, body: seq<byte>, found: Found): Result<Found, AudioError> {
    if id == FMT then
      var spec := ParseWavFmt(body);
      if spec.Err? then Err(spec.error) else Ok(found.(format := Some(spec.value)))
    else if id == DATA then Ok(found.(data := Some(body)))
    else Ok(found)
  }

  /** Walks the chunks from `offset` on. */
  function Walk(bytes: seq<byte>, offset: nat, found: Found): Result<Found, AudioError>
    decreases |bytes| - offset
  {
    if offset + 8 > |bytes| then Ok(found)
    else
      var len: nat := ReadLeU32(bytes[offset + 4..offset + 8]);
      var end := offset + 8 + len;
      if end > |bytes| then Err(InvalidWav("chunk extends past end of file"))
      else
        var now := Absorb(bytes[offset..offset + 4], bytes[offset + 8..end], found);
        if now.Err? then now else Walk(bytes, end + len % 2, now.value)
  }

  function Assemble(found: Found): (r: Result<PcmBuffer, AudioError>)
    ensures r.Ok? ==> r.value.Valid()
  {
    if found.format.None? then Err(InvalidWav("missing fmt chunk"))
    else if found.data.None? then Err(InvalidWav("missing data chunk"))
    else if |found.data.value| % 2 != 0 then Err(InvalidWav("data chunk has an odd byte count"))
    else WithSpec(found.format.value, BytesToSamples(found.data.value))
  }

  predicate HasHeader(bytes: seq<byte>) {
    |bytes| >= 12 && bytes[0..4] == RIFF && bytes[8..12] == WAVE
  }

  function Decode(bytes: seq<byte>): (r: Result<PcmBuffer, AudioError>)
    ensures r.Ok? ==> r.value.Valid()
  {
    if !HasHeader(bytes) then Err(InvalidWav("missing RIFF/WAVE header"))
    else match Walk(bytes, 12, Found(None, None))
      case Err(e) => Err(e)
      case Ok(found) => Assemble(found)
  }

  /** The chunk loop: on every byte string it ends, stays in bounds and computes `Decode`. */
  method DecodeWavPcm16le(bytes: seq<byte>) returns (r: Result<PcmBuffer, AudioError>)
    ensures r == Decode(bytes)
    ensures r.Ok? ==> r.value.Valid()
  {
    if |bytes| < 12 || bytes[0..4] != RIFF || bytes[8..12] != WAVE {
      return Err(InvalidWav("missing RIFF/WAVE header"));
    }
    var format: Option<PcmSpec> := None;
    var data: Option<seq<byte>> := None;
    var offset := 12;
    while offset + 8 <= |bytes|
      invariant Reached(bytes, offset, Found(format, data))
    {
      var chunkId := bytes[offset..offset + 4];
      var chunkLen: nat := ReadLeU32(bytes[offset + 4..offset + 8]);
      var chunkStart := offset + 8;
      var chunkEnd := chunkStart + chunkLen;
      if chunkEnd > |bytes| {
        OverrunFails(bytes, offset, Found(format, data));
        return Err(InvalidWav("chunk extends past end of file"));
      }
      var chunk := bytes[chunkStart..chunkEnd];
      ghost var next := Absorb(chunkId, chunk, Found(format, data));
      ReachNext(bytes, offset, chunkId, chunk, chunkEnd + chunkLen % 2, Found(format, data));
      if chunkId == FMT {
        var parsed := ParseWavFmt(chunk);
        if parsed.Err? {
          return Err(parsed.error);
        }
        format := Some(parsed.value);
      } else if chunkId == DATA {
        data := Some(chunk);
      }
      assert next == Ok(Found(format, data));
      offset := chunkEnd + chunkLen % 2;
    }
    EndAssembles(bytes, offset, Found(format, data));
    return Assemble(Found(format, data));
  }

  /** The walk from the start comes to `offset` having found `found`. */
  ghost predicate Reached(bytes: seq<byte>, offset: nat, found: Found) {
    Walk(bytes, offset, found) == Walk(bytes, 12, Found(None, None))
  }

  lemma ReachNext(bytes: seq<byte>, offset: nat, id: seq<byte>, body: seq<byte>, next: nat, found: Found)
    requires HasHeader(bytes) && Reached(bytes, offset, found)
    requires HoldsChunk(bytes, offset, id, body) && next == offset + 8 + |body| + |body| % 2
    ensures Absorb(id, body, found).Err? ==> Decode(bytes) == Err(Absorb(id, body, found).error)
    ensures Absorb(id, body, found).Ok? ==> Reached(bytes, next, Absorb(id, body, found).value)
  {
    WalkStep(bytes, offset, id, body, next, found);
  }

  lemma OverrunFails(bytes: seq<byte>, offset: nat, found: Found)
    requires HasHeader(bytes) && Reached(bytes, offset, found)
    requires offset + 8 <= |bytes| < offset + 8 + ReadLeU32(bytes[offset + 4..offset + 8])
    ensures Decode(bytes) == Err(InvalidWav("chunk extends past end of file"))
  {
  }

  lemma EndAssembles(bytes: seq<byte>, offset: nat, found: Found)
    requires HasHeader(bytes) && Reached(bytes, offset, found) && |bytes| < offset + 8
    ensures Decode(bytes) == Assemble(found)
  {
  }

  // ---- The list of chunks a file is made of ----

  /** `pad` is the filler byte written after a body of odd length. */
  datatype Chunk = Chunk(id: seq<byte>, body: seq<byte>, pad: byte) {
    predicate Valid() {
      |id| == 4 && |body| < 0x1_0000_0000
    }

    function Written(): seq<byte>
      requires Valid()
    {
      id + LeU32(|body|) + body + (if |body| % 2 == 1 then [pad] else [])
    }
  }

  ghost predicate AllValid(chunks: seq<Chunk>) {
    forall i :: 0 <= i < |chunks| ==> chunks[i].Valid()
  }

  function WrittenAll(chunks: seq<Chunk>): seq<byte>
    requires forall i :: 0 <= i < |chunks| ==> chunks[i].Valid()
  {
    if chunks == [] then [] else chunks[0].Written() + WrittenAll(chunks[1..])
  }

  /** A RIFF/WAVE file; the reader looks neither at `size` nor at a tail too short for a chunk. */
  function RiffFile(size: u32, chunks: seq<Chunk>, tail: seq<byte>): seq<byte>
    requires forall i :: 0 <= i < |chunks| ==> chunks[i].Valid()
  {
    RIFF + LeU32(size) + WAVE + (WrittenAll(chunks) + tail)
  }

  /** The body of the last chunk with this id. */
  function LastBody(chunks: seq<Chunk>, id: seq<byte>): (r: Option<seq<byte>>)
    ensures r.None? <==> forall i :: 0 <= i < |chunks| ==> chunks[i].id != id
    ensures r.Some? ==> exists i ::
              && 0 <= i < |chunks| && chunks[i].id == id && chunks[i].body == r.value
              && forall j :: i < j < |chunks| ==> chunks[j].id != id
  {
    if chunks == [] then None
    else
      var later := LastBody(chunks[1..], id);
      assert forall i :: 0 < i < |chunks| ==> chunks[i] == chunks[1..][i - 1];
      if later.Some? then
        var i :| 0 <= i < |chunks| - 1 && chunks[1..][i].id == id && chunks[1..][i].body == later.value
              && forall j :: i < j < |chunks| - 1 ==> chunks[1..][j].id != id;
        assert chunks[i + 1].id == id;
        later
      else if chunks[0].id == id then Some(chunks[0].body)
      else None
  }

  /** The error of the first `fmt ` chunk that does not parse. */
  function FirstBadFmt(chunks: seq<Chunk>): Option<AudioError> {
    if chunks == [] then None
    else if chunks[0].id == FMT && ParseWavFmt(chunks[0].body).Err? then
      Some(ParseWavFmt(chunks[0].body).error)
    else FirstBadFmt(chunks[1..])
  }

  lemma {:induction false} LastFmtParses(chunks: seq<Chunk>)
    requires FirstBadFmt(chunks).None?
    ensures LastBody(chunks, FMT).Some? ==> ParseWavFmt(LastBody(chunks, FMT).value).Ok?
  {
    if chunks != [] {
      LastFmtParses(chunks[1..]);
    }
  }

  /** What a list of chunks means: any bad `fmt ` fails, else the last `fmt ` and the last `data` win. */
  function Meaning(chunks: seq<Chunk>): Result<PcmBuffer, AudioError> {
    match FirstBadFmt(chunks)
    case Some(e) => Err(e)
    case None =>
      LastFmtParses(chunks);
      var format := LastBody(chunks, FMT);
      Assemble(Found(if format.Some? then Some(ParseWavFmt(format.value).value) else None, LastBody(chunks, DATA)))
  }

  /** What walking a list of chunks leaves in `found`. */
  function AbsorbAll(chunks: seq<Chunk>, found: Found): Result<Found, AudioError> {
    if chunks == [] then Ok(found)
    else
      var now := Absorb(chunks[0].id, chunks[0].body, found);
      if now.Err? then now else AbsorbAll(chunks[1..], now.value)
  }

  lemma {:induction false} LastOnesWin(chunks: seq<Chunk>, found: Found)
    requires FirstBadFmt(chunks).None?
    ensures AbsorbAll(chunks, found).Ok?
    ensures var format := LastBody(chunks, FMT);
            && (format.Some? ==> ParseWavFmt(format.value).Ok?)
            && AbsorbAll(chunks, found).value.format ==
               (if format.Some? then Some(ParseWavFmt(format.value).value) else found.format)
    ensures var data := LastBody(chunks, DATA);
            AbsorbAll(chunks, found).value.data == if data.Some? then data else found.data
  {
    if chunks != [] {
      LastOnesWin(chunks[1..], Absorb(chunks[0].id, chunks[0].body, found).value);
    }
  }

  lemma {:induction false} BadFmtFails(chunks: seq<Chunk>, found: Found)
    requires FirstBadFmt(chunks).Some?
    ensures AbsorbAll(chunks, found) == Err(FirstBadFmt(chunks).value)
  {
    var now := Absorb(chunks[0].id, chunks[0].body, found);
    if now.Ok? {
      BadFmtFails(chunks[1..], now.value);
    }
  }

  /** One step of the walk over a whole chunk. */
  lemma WalkStep(bytes: seq<byte>, offset: nat, id: seq<byte>, body: seq<byte>, next: nat, found: Found)
    requires HoldsChunk(bytes, offset, id, body) && next == offset + 8 + |body| + |body| % 2
    ensures Absorb(id, body, found).Err? ==> Walk(bytes, offset, found) == Absorb(id, body, found)
    ensures Absorb(id, body, found).Ok? ==>
              Walk(bytes, offset, found) == Walk(bytes, next, Absorb(id, body, found).value)
  {
  }

  ghost predicate HoldsChunk(bytes: seq<byte>, offset: nat, id: seq<byte>, body: seq<byte>) {
    && offset + 8 + |body| <= |bytes|
    && bytes[offset..offset + 4] == id
    && ReadLeU32(bytes[offset + 4..offset + 8]) == |body|
    && bytes[offset + 8..offset + 8 + |body|] == body
  }

  lemma ChunkSlices(bytes: seq<byte>, offset: nat, c: Chunk, more: seq<byte>)
    requires c.Valid() && offset <= |bytes| && bytes[offset..] == c.Written() + more
    ensures var len: nat := |c.body|;
            && |c.Written()| == 8 + len + len % 2
            && offset + 8 + len + len % 2 <= |bytes|
            && HoldsChunk(bytes, offset, c.id, c.body)
            && bytes[offset + 8 + len + len % 2..] == more
  {
    var rest := bytes[offset..];
    var len: nat := |c.body|;
    ReadLeU32OfLeU32(len);
    assert bytes[offset..offset + 4] == rest[0..4] == c.id;
    assert bytes[offset + 4..offset + 8] == rest[4..8] == LeU32(len);
    assert bytes[offset + 8..offset + 8 + len] == rest[8..8 + len] == c.body;
    assert bytes[offset + |c.Written()|..] == rest[|c.Written()|..] == more;
  }

  lemma {:induction false} WalkAbsorbs(bytes: seq<byte>, offset: nat, chunks: seq<Chunk>, tail: seq<byte>, found: Found)
    requires AllValid(chunks) && |tail| < 8
    requires offset <= |bytes| && bytes[offset..] == WrittenAll(chunks) + tail
    ensures Walk(bytes, offset, found) == AbsorbAll(chunks, found)
    decreases |chunks|
  {
    if chunks != [] {
      var c := chunks[0];
      var len: nat := |c.body|;
      var next := offset + 8 + len + len % 2;
      var more := WrittenAll(chunks[1..]) + tail;
      assert WrittenAll(chunks) + tail == c.Written() + more;
      ChunkSlices(bytes, offset, c, more);
      var now := Absorb(c.id, c.body, found);
      WalkStep(bytes, offset, c.id, c.body, next, found);
      if now.Ok? {
        WalkAbsorbs(bytes, next, chunks[1..], tail, now.value);
      }
    }
  }

  /** The loop computes what the list of chunks means. */
  lemma DecodeIsMeaning(size: u32, chunks: seq<Chunk>, tail: seq<byte>)
    requires AllValid(chunks) && |tail| < 8
    ensures Decode(RiffFile(size, chunks, tail)) == Meaning(chunks)
  {
    var bytes := RiffFile(size, chunks, tail);
    assert bytes[0..4] == RIFF;
    assert bytes[8..12] == WAVE;
    assert bytes[12..] == WrittenAll(chunks) + tail;
    WalkAbsorbs(bytes, 12, chunks, tail, Found(None, None));
    if FirstBadFmt(chunks).Some? {
      BadFmtFails(chunks, Found(None, None));
    } else {
      LastOnesWin(chunks, Found(None, None));
    }
  }

  // ---- Every accepted file is such a list ----

  /** The chunks and a short tail spell the bytes, up to a filler byte missing at the very end. */
  ghost predicate Spells(bytes: seq<byte>, chunks: seq<Chunk>, tail: seq<byte>) {
    && AllValid(chunks)
    && ((|tail| < 8 && bytes == WrittenAll(chunks) + tail) || (tail == [] && bytes + [0] == WrittenAll(chunks)))
  }

  lemma SpellsOneMore(bytes: seq<byte>, c: Chunk, more: seq<byte>, chunks: seq<Chunk>, tail: seq<byte>)
    requires c.Valid() && bytes == c.Written() + more && Spells(more, chunks, tail)
    ensures Spells(bytes, [c] + chunks, tail)
  {
    var all := [c] + chunks;
    assert all[1..] == chunks;
    assert WrittenAll(all) == c.Written() + WrittenAll(chunks);
    if more + [0] == WrittenAll(chunks) {
      assert bytes + [0] == c.Written() + (more + [0]);
    } else {
      assert bytes == c.Written() + WrittenAll(chunks) + tail;
    }
  }

  lemma SpellsLast(bytes: seq<byte>, c: Chunk)
    requires c.Valid() && bytes + [0] == c.Written()
    ensures Spells(bytes, [c], [])
  {
    assert [c][1..] == [];
    assert WrittenAll([c]) == c.Written() + WrittenAll([]);
  }

  lemma LeU32OfReadLeU32(four: seq<byte>)
    requires |four| == 4
    ensures LeU32(ReadLeU32(four)) == four
  {
    var low: nat := (four[0] as int) + 0x100 * (four[1] as int);
    var v: nat := low + 0x1_0000 * ((four[2] as int) + 0x100 * (four[3] as int));
    assert v / 0x1_0000 == (four[2] as int) + 0x100 * (four[3] as int);
    assert v / 0x100 == (four[1] as int) + 0x100 * ((four[2] as int) + 0x100 * (four[3] as int));
    assert v / 0x100_0000 == four[3];
  }

  /** The chunk at `offset`, with the filler byte that follows it, or 0 where the file ends first. */
  function ChunkAt(bytes: seq<byte>, offset: nat): (c: Chunk)
    requires offset + 8 <= |bytes| && offset + 8 + ReadLeU32(bytes[offset + 4..offset + 8]) <= |bytes|
    ensures c.Valid()
  {
    var end := offset + 8 + ReadLeU32(bytes[offset + 4..offset + 8]);
    Chunk(bytes[offset..offset + 4], bytes[offset + 8..end], if end < |bytes| then bytes[end] else 0)
  }

  lemma ChunkAtSpells(bytes: seq<byte>, offset: nat)
    requires offset + 8 <= |bytes| && offset + 8 + ReadLeU32(bytes[offset + 4..offset + 8]) <= |bytes|
    ensures var c := ChunkAt(bytes, offset);
            var next := offset + 8 + |c.body| + |c.body| % 2;
            && HoldsChunk(bytes, offset, c.id, c.body)
            && next <= |bytes| + 1
            && (if next <= |bytes| then bytes[offset..] == c.Written() + bytes[next..]
                else bytes[offset..] + [0] == c.Written())
  {
    var c := ChunkAt(bytes, offset);
    var end := offset + 8 + |c.body|;
    LeU32OfReadLeU32(bytes[offset + 4..offset + 8]);
    assert bytes[offset..end] == c.id + LeU32(|c.body|) + c.body;
    assert bytes[offset..] == bytes[offset..end] + bytes[end..];
    if |c.body| % 2 == 1 && end < |bytes| {
      assert bytes[end..] == [bytes[end]] + bytes[end + 1..];
    }
  }

  lemma {:induction false} WalkReadsChunks(bytes: seq<byte>, offset: nat, found: Found)
      returns (chunks: seq<Chunk>, tail: seq<byte>)
    requires offset <= |bytes| && Walk(bytes, offset, found).Ok?
    ensures Spells(bytes[offset..], chunks, tail)
    ensures Walk(bytes, offset, found) == AbsorbAll(chunks, found)
    decreases |bytes| - offset
  {
    chunks, tail := [], bytes[offset..];
    if offset + 8 <= |bytes| {
      var c := ChunkAt(bytes, offset);
      var next := offset + 8 + |c.body| + |c.body| % 2;
      ChunkAtSpells(bytes, offset);
      WalkStep(bytes, offset, c.id, c.body, next, found);
      var now := Absorb(c.id, c.body, found).value;
      if next <= |bytes| {
        chunks, tail := WalkReadsChunks(bytes, next, now);
        SpellsOneMore(bytes[offset..], c, bytes[next..], chunks, tail);
        assert ([c] + chunks)[1..] == chunks;
        chunks := [c] + chunks;
      } else {
        SpellsLast(bytes[offset..], c);
        chunks, tail := [c], [];
        assert chunks[1..] == [];
      }
    }
  }

  /** Whatever the reader accepts is a RIFF/WAVE header and a list of chunks, and it reads it as that list means. */
  lemma EveryAcceptedFileIsItsChunks(bytes: seq<byte>)
    requires Decode(bytes).Ok?
    ensures |bytes| >= 12 && bytes[0..4] == [0x52, 0x49, 0x46, 0x46] && bytes[8..12] == [0x57, 0x41, 0x56, 0x45]
    ensures exists chunks, tail :: Spells(bytes[12..], chunks, tail) && Decode(bytes) == Meaning(chunks)
  {
    var nothing := Found(None, None);
    var chunks, tail := WalkReadsChunks(bytes, 12, nothing);
    if FirstBadFmt(chunks).Some? {
      BadFmtFails(chunks, nothing);
    } else {
      LastOnesWin(chunks, nothing);
    }
    assert Decode(bytes) == Meaning(chunks);
  }

  // ---- What is accepted, chunk by chunk ----

  /** The chunk at `i` is the last one with this id. */
  ghost predicate IsLast(chunks: seq<Chunk>, id: seq<byte>, i: nat) {
    i < |chunks| && chunks[i].id == id && forall j :: i < j < |chunks| ==> chunks[j].id != id
  }

  ghost predicate EveryFmtParses(chunks: seq<Chunk>) {
    forall i :: 0 <= i < |chunks| && chunks[i].id == FMT ==> ParseWavFmt(chunks[i].body).Ok?
  }

  lemma {:induction false} NoBadFmtIffAllParse(chunks: seq<Chunk>)
    ensures FirstBadFmt(chunks).None? <==> EveryFmtParses(chunks)
  {
    if chunks != [] {
      NoBadFmtIffAllParse(chunks[1..]);
      assert forall i :: 0 < i < |chunks| ==> chunks[i] == chunks[1..][i - 1];
    }
  }

  lemma LastBodyIsLast(chunks: seq<Chunk>, id: seq<byte>, i: nat)
    requires IsLast(chunks, id, i)
    ensures LastBody(chunks, id) == Some(chunks[i].body)
  {
  }

  /** The buffer's layout is that of the last `fmt ` chunk, and its samples spell the last `data` chunk. */
  ghost predicate IsReadFrom(buffer: PcmBuffer, chunks: seq<Chunk>) {
    && (exists f: nat :: IsLast(chunks, FMT, f) && ParseWavFmt(chunks[f].body) == Ok(buffer.spec))
    && (exists d: nat :: IsLast(chunks, DATA, d) && chunks[d].body == SamplesToBytes(buffer.samples))
  }

  lemma ReadIsMeant(chunks: seq<Chunk>, buffer: PcmBuffer)
    requires EveryFmtParses(chunks) && buffer.Valid() && IsReadFrom(buffer, chunks)
    ensures Meaning(chunks) == Ok(buffer)
  {
    NoBadFmtIffAllParse(chunks);
    var f: nat :| IsLast(chunks, FMT, f) && ParseWavFmt(chunks[f].body) == Ok(buffer.spec);
    var d: nat :| IsLast(chunks, DATA, d) && chunks[d].body == SamplesToBytes(buffer.samples);
    LastBodyIsLast(chunks, FMT, f);
    LastBodyIsLast(chunks, DATA, d);
    BytesToSamplesOfSamplesToBytes(buffer.samples);
  }

  lemma LastBodyStands(chunks: seq<Chunk>, id: seq<byte>) returns (i: nat)
    requires LastBody(chunks, id).Some?
    ensures IsLast(chunks, id, i) && chunks[i].body == LastBody(chunks, id).value
  {
    i :| i < |chunks| && chunks[i].id == id && chunks[i].body == LastBody(chunks, id).value
         && forall j :: i < j < |chunks| ==> chunks[j].id != id;
  }

  lemma MeantIsRead(chunks: seq<Chunk>, buffer: PcmBuffer)
    requires Meaning(chunks) == Ok(buffer)
    ensures EveryFmtParses(chunks) && buffer.Valid() && IsReadFrom(buffer, chunks)
  {
    NoBadFmtIffAllParse(chunks);
    LastFmtParses(chunks);
    var f := LastBodyStands(chunks, FMT);
    var d := LastBodyStands(chunks, DATA);
    SamplesToBytesOfBytesToSamples(chunks[d].body);
  }

  /**
   For every list of chunks the reader gives this buffer if and only if every `fmt ` chunk is the
   header of a layout, the last one of the buffer's, the last `data` chunk is its samples, and
   they are whole frames. In particular it refuses an odd number of bytes.
   */
  lemma FileIsReadAsTheBufferItHolds(size: u32, chunks: seq<Chunk>, tail: seq<byte>, buffer: PcmBuffer)
    requires AllValid(chunks) && |tail| < 8
    ensures Decode(RiffFile(size, chunks, tail)) == Ok(buffer) <==>
            EveryFmtParses(chunks) && buffer.Valid() && IsReadFrom(buffer, chunks)
  {
    DecodeIsMeaning(size, chunks, tail);
    if Meaning(chunks) == Ok(buffer) {
      MeantIsRead(chunks, buffer);
    } else if EveryFmtParses(chunks) && buffer.Valid() && IsReadFrom(buffer, chunks) {
      ReadIsMeant(chunks, buffer);
    }
  }

  lemma {:induction false} UnknownChunkIsInvisible(a: seq<Chunk>, c: Chunk, b: seq<Chunk>)
    requires c.id != FMT && c.id != DATA
    ensures FirstBadFmt(a + [c] + b) == FirstBadFmt(a + b)
    ensures LastBody(a + [c] + b, FMT) == LastBody(a + b, FMT)
    ensures LastBody(a + [c] + b, DATA) == LastBody(a + b, DATA)
  {
    if a == [] {
      assert (a + [c] + b)[1..] == b && a + b == b;
    } else {
      assert (a + [c] + b)[1..] == a[1..] + [c] + b;
      assert (a + b)[1..] == a[1..] + b;
      UnknownChunkIsInvisible(a[1..], c, b);
    }
  }

  /** Inserting a chunk the reader does not know, at any chunk boundary, changes nothing. */
  lemma UnknownChunkChangesNothing(size: u32, size': u32, a: seq<Chunk>, c: Chunk, b: seq<Chunk>, tail: seq<byte>)
    requires AllValid(a) && c.Valid() && AllValid(b) && |tail| < 8
    requires c.id != FMT && c.id != DATA
    ensures AllValid(a + [c] + b) && AllValid(a + b)
    ensures Decode(RiffFile(size, a + [c] + b, tail)) == Decode(RiffFile(size', a + b, tail))
  {
    UnknownChunkIsInvisible(a, c, b);
    DecodeIsMeaning(size, a + [c] + b, tail);
    DecodeIsMeaning(size', a + b, tail);
  }

  // ---- Writer ----

  function ByteRate(pcm: PcmSpec): nat {
    Times(pcm.channels, pcm.sampleRateHz) * 2
  }

  /** A caller's check before encoding: every field of the header fits its width. */
  predicate Encodable(pcm: PcmSpec, samples: seq<i16>) {
    && PcmBuffer(pcm, samples).Valid()
    && 36 + 2 * |samples| < 0x1_0000_0000
    && ByteRate(pcm) < 0x1_0000_0000
    && pcm.channels as int * 2 < 0x1_0000
  }

  function FmtBody(channels: u16, sampleRateHz: u32, byteRate: u32, blockAlign: u16): (body: seq<byte>)
    ensures |body| == 16
  {
    (LeU16(1) + LeU16(channels) + LeU32(sampleRateHz)) + (LeU32(byteRate) + LeU16(blockAlign) + LeU16(16))
  }

  function FmtChunk(pcm: PcmSpec): (c: Chunk)
    requires ByteRate(pcm) < 0x1_0000_0000 && pcm.channels as int * 2 < 0x1_0000
    ensures c.Valid()
  {
    Chunk(FMT, FmtBody(pcm.channels, pcm.sampleRateHz, ByteRate(pcm), pcm.channels as int * 2), 0)
  }

  function DataChunk(samples: seq<i16>): (c: Chunk)
    requires 2 * |samples| < 0x1_0000_0000
    ensures c.Valid()
  {
    Chunk(DATA, SamplesToBytes(samples), 0)
  }

  function CanonicalChunks(pcm: PcmSpec, samples: seq<i16>): (chunks: seq<Chunk>)
    requires Encodable(pcm, samples)
    ensures AllValid(chunks)
  {
    [FmtChunk(pcm), DataChunk(samples)]
  }

  /** The canonical file: one `fmt ` chunk, then one `data` chunk. */
  function CanonicalWav(pcm: PcmSpec, samples: seq<i16>): seq<byte>
    requires Encodable(pcm, samples)
  {
    RiffFile(36 + 2 * |samples|, CanonicalChunks(pcm, samples), [])
  }

  /** Why the writer refuses: the source's message without the interpolated numbers. */
  function Refusal(pcm: PcmSpec, samples: seq<i16>): string {
    if !pcm.Valid() then "invalid remote ASR PCM spec"
    else if |samples| % pcm.channels != 0 then "remote ASR PCM sample count is not aligned"
    else if 36 + 2 * |samples| >= 0x1_0000_0000 then "remote ASR WAV payload is too large"
    else if ByteRate(pcm) >= 0x1_0000_0000 then "remote ASR PCM byte rate overflow"
    else "remote ASR PCM block alignment overflow"
  }

  function Encode(pcm: PcmSpec, samples: seq<i16>): Result<seq<byte>, string> {
    if Encodable(pcm, samples) then Ok(CanonicalWav(pcm, samples)) else Err(Refusal(pcm, samples))
  }

  lemma AppendSix(p: seq<byte>, a: seq<byte>, b: seq<byte>, c: seq<byte>, d: seq<byte>, e: seq<byte>, f: seq<byte>)
    ensures p + a + b + c + d + e + f == p + ((a + b + c) + (d + e + f))
  {
  }

  lemma TwoChunks(fmt: Chunk, data: Chunk)
    requires fmt.Valid() && data.Valid()
    ensures WrittenAll([fmt, data]) == fmt.Written() + data.Written()
  {
    assert [fmt, data][1..] == [data] && [data][1..] == [];
    assert WrittenAll([data]) == data.Written() + WrittenAll([]);
  }

  /** The fields in the order they are written. */
  lemma CanonicalFields(pcm: PcmSpec, samples: seq<i16>)
    requires Encodable(pcm, samples)
    ensures CanonicalWav(pcm, samples) ==
            RIFF + LeU32(36 + 2 * |samples|) + WAVE
            + FMT + LeU32(16) + LeU16(1) + LeU16(pcm.channels) + LeU32(pcm.sampleRateHz) + LeU32(ByteRate(pcm))
            + LeU16(pcm.channels as int * 2) + LeU16(16)
            + DATA + LeU32(2 * |samples|) + SamplesToBytes(samples)
  {
    var fmt, data := FmtChunk(pcm), DataChunk(samples);
    var header := RIFF + LeU32(36 + 2 * |samples|) + WAVE;
    TwoChunks(fmt, data);
    AppendSix(header + FMT + LeU32(16), LeU16(1), LeU16(pcm.channels), LeU32(pcm.sampleRateHz),
              LeU32(ByteRate(pcm)), LeU16(pcm.channels as int * 2), LeU16(16));
    assert header + FMT + LeU32(16) + fmt.body == header + fmt.Written();
    assert header + fmt.Written() + DATA + LeU32(2 * |samples|) + data.body == header + fmt.Written() + data.Written();
  }

  method EncodePcm16leWav(pcm: PcmSpec, samples: seq<i16>) returns (r: Result<seq<byte>, string>)
    ensures r.Ok? <==> Encodable(pcm, samples)
    ensures r == Encode(pcm, samples)
  {
    if pcm.Validate().Err? {
      return Err("invalid remote ASR PCM spec");
    }
    if |samples| % pcm.channels != 0 {
      return Err("remote ASR PCM sample count is not aligned");
    }
    var data := I16SamplesToLeBytes(samples);
    if |data| >= 0x1_0000_0000 || 36 + |data| >= 0x1_0000_0000 {
      return Err("remote ASR WAV payload is too large");
    }
    var riffSize := 36 + |data|;
    var perChannel := Times(pcm.channels, pcm.sampleRateHz);
    if perChannel >= 0x1_0000_0000 || perChannel * 2 >= 0x1_0000_0000 {
      return Err("remote ASR PCM byte rate overflow");
    }
    var byteRate := perChannel * 2;
    if pcm.channels as int * 2 >= 0x1_0000 {
      return Err("remote ASR PCM block alignment overflow");
    }
    var blockAlign := pcm.channels as int * 2;
    var wav := RIFF;
    wav := wav + LeU32(riffSize);
    wav := wav + WAVE;
    wav := wav + FMT;
    wav := wav + LeU32(16);
    wav := wav + LeU16(1);
    wav := wav + LeU16(pcm.channels);
    wav := wav + LeU32(pcm.sampleRateHz);
    wav := wav + LeU32(byteRate);
    wav := wav + LeU16(blockAlign);
    wav := wav + LeU16(16);
    wav := wav + DATA;
    wav := wav + LeU32(|data|);
    wav := wav + data;
    CanonicalFields(pcm, samples);
    return Ok(wav);
  }

  lemma FmtBodyReads(channels: u16, sampleRateHz: u32, byteRate: u32, blockAlign: u16)
    ensures var body := FmtBody(channels, sampleRateHz, byteRate, blockAlign);
            ReadFormat(body) == Format(1, channels, sampleRateHz, byteRate, blockAlign, 16)
  {
    var body := FmtBody(channels, sampleRateHz, byteRate, blockAlign);
    ReadLeU32OfLeU32(sampleRateHz);
    ReadLeU32OfLeU32(byteRate);
    var a := LeU16(1) + LeU16(channels) + LeU32(sampleRateHz);
    var b := LeU32(byteRate) + LeU16(blockAlign) + LeU16(16);
    assert a[0..2] == LeU16(1) && a[2..4] == LeU16(channels) && a[4..8] == LeU32(sampleRateHz);
    assert b[0..4] == LeU32(byteRate) && b[4..6] == LeU16(blockAlign) && b[6..8] == LeU16(16);
    assert body[0..2] == a[0..2] && body[2..4] == a[2..4] && body[4..8] == a[4..8];
    assert body[8..12] == b[0..4] && body[12..14] == b[4..6] && body[14..16] == b[6..8];
  }

  /** Every field of the layout's header fits its width. */
  predicate HasHeaderFields(pcm: PcmSpec) {
    pcm.Valid() && ByteRate(pcm) < 0x1_0000_0000 && pcm.channels as int * 2 < 0x1_0000
  }

  /** The reader accepts exactly the chunks whose fields are the header of some layout, and gives that layout. */
  lemma ParseWavFmtInvertsTheHeader(chunk: seq<byte>, pcm: PcmSpec)
    ensures ParseWavFmt(chunk) == Ok(pcm) <==>
            && |chunk| >= 16 && HasHeaderFields(pcm)
            && ReadFormat(chunk) ==
               Format(1, pcm.channels, pcm.sampleRateHz, ByteRate(pcm), pcm.channels as int * 2, 16)
  {
    TimesAdd(pcm.channels, pcm.channels, pcm.sampleRateHz);
  }

  lemma FmtChunkParses(pcm: PcmSpec)
    requires pcm.Valid() && ByteRate(pcm) < 0x1_0000_0000 && pcm.channels as int * 2 < 0x1_0000
    ensures ParseWavFmt(FmtChunk(pcm).body) == Ok(pcm)
  {
    FmtBodyReads(pcm.channels, pcm.sampleRateHz, ByteRate(pcm), pcm.channels as int * 2);
    TimesAdd(pcm.channels, pcm.channels, pcm.sampleRateHz);
  }

  lemma CanonicalMeaning(fmt: Chunk, data: Chunk)
    requires fmt.id == FMT && data.id == DATA && ParseWavFmt(fmt.body).Ok?
    ensures Meaning([fmt, data]) == Assemble(Found(Some(ParseWavFmt(fmt.body).value), Some(data.body)))
  {
    var chunks := [fmt, data];
    assert chunks[1..] == [data] && [data][1..] == [];
    assert FirstBadFmt([data]) == FirstBadFmt([]);
    assert FirstBadFmt(chunks).None?;
    assert LastBody([data], FMT).None? && LastBody(chunks, FMT) == Some(fmt.body);
    assert LastBody([data], DATA) == Some(data.body) && LastBody(chunks, DATA) == Some(data.body);
  }

  lemma CanonicalSize(pcm: PcmSpec, samples: seq<i16>)
    requires Encodable(pcm, samples)
    ensures |CanonicalWav(pcm, samples)| == 44 + 2 * |samples|
    ensures ReadLeU32(CanonicalWav(pcm, samples)[4..8]) == |CanonicalWav(pcm, samples)| - 8
  {
    TwoChunks(FmtChunk(pcm), DataChunk(samples));
    assert CanonicalWav(pcm, samples)[4..8] == LeU32(36 + 2 * |samples|);
    ReadLeU32OfLeU32(36 + 2 * |samples|);
  }

  lemma AssembleOfSamples(pcm: PcmSpec, samples: seq<i16>)
    requires PcmBuffer(pcm, samples).Valid()
    ensures Assemble(Found(Some(pcm), Some(SamplesToBytes(samples)))) == Ok(PcmBuffer(pcm, samples))
  {
    BytesToSamplesOfSamplesToBytes(samples);
  }

  lemma CanonicalFindings(pcm: PcmSpec, samples: seq<i16>)
    requires Encodable(pcm, samples)
    ensures Meaning(CanonicalChunks(pcm, samples)) == Assemble(Found(Some(pcm), Some(SamplesToBytes(samples))))
  {
    FmtChunkParses(pcm);
    CanonicalMeaning(FmtChunk(pcm), DataChunk(samples));
  }

  /** Reading undoes writing wherever the writer succeeds. */
  lemma DecodeOfEncode(pcm: PcmSpec, samples: seq<i16>)
    requires Encode(pcm, samples).Ok?
    ensures Decode(Encode(pcm, samples).value) == Ok(PcmBuffer(pcm, samples))
  {
    DecodeIsMeaning(36 + 2 * |samples|, CanonicalChunks(pcm, samples), []);
    CanonicalFindings(pcm, samples);
    AssembleOfSamples(pcm, samples);
  }
}
