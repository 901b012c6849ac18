/** The hand-off from the media recorder to the upload: encoded chunks are
    buffered in `audioChunks` as they arrive (static/script.js:42-46) and,
    when the recorder stops, joined into one WAV blob and the buffer reset
    (static/script.js:59-64). */
module Recorder {
  import opened LevelMeter

  type Chunk = seq<Byte>

  /** A `Blob`: its bytes and its MIME type. */
  datatype Blob = Blob(bytes: seq<Byte>, mimeType: string)

  /** The multipart form sent to the translation endpoint. */
  datatype UploadForm = UploadForm(audio: Blob, fileName: string, targetLanguageCode: string)

  /** The bytes of a list of chunks, laid end to end in order. */
  function Concat(chunks: seq<Chunk>): seq<Byte>
  {
    if chunks == [] then [] else chunks[0] + Concat(chunks[1..])
  }

  /** The chunks the buffer keeps: the non-empty ones, in arrival order. */
  function Kept(chunks: seq<Chunk>): (r: seq<Chunk>)
    ensures |r| <= |chunks|
    ensures forall i :: 0 <= i < |r| ==> |r[i]| > 0
  {
    if chunks == [] then []
    else if |chunks[0]| > 0 then [chunks[0]] + Kept(chunks[1..])
    else Kept(chunks[1..])
  }

  lemma {:induction false} ConcatAppend(a: seq<Chunk>, b: seq<Chunk>)
    ensures Concat(a + b) == Concat(a) + Concat(b)
  {
    if a == [] {
      assert a + b == b;
    } else {
      assert (a + b)[0] == a[0] && (a + b)[1..] == a[1..] + b;
      ConcatAppend(a[1..], b);
    }
  }

  /** Keeping commutes with arrival: the chunks kept from a longer stream
      are those kept from its prefix followed by those kept from the rest. */
  lemma {:induction false} KeptAppend(a: seq<Chunk>, b: seq<Chunk>)
    ensures Kept(a + b) == Kept(a) + Kept(b)
  {
    if a == [] {
      assert a + b == b;
    } else {
      assert (a + b)[0] == a[0] && (a + b)[1..] == a[1..] + b;
      KeptAppend(a[1..], b);
    }
  }

  /** Dropping empty chunks loses no bytes: the kept chunks join into the
      byte-for-byte concatenation of everything that arrived. */
  lemma {:induction false} ConcatKept(chunks: seq<Chunk>)
    ensures Concat(Kept(chunks)) == Concat(chunks)
  {
    if chunks != [] {
      ConcatKept(chunks[1..]);
    }
  }

  /** A stream with no empty chunk is kept whole. */
  lemma {:induction false} KeptAllNonEmpty(chunks: seq<Chunk>)
    requires forall i :: 0 <= i < |chunks| ==> |chunks[i]| > 0
    ensures Kept(chunks) == chunks
  {
    if chunks != [] {
      KeptAllNonEmpty(chunks[1..]);
    }
  }

  /** Three chunks with an empty one among them join into the three
      non-empty ones in arrival order. */
  lemma EmptyChunkOmitted(b1: Chunk, b2: Chunk, b3: Chunk)
    requires |b1| > 0 && |b2| > 0 && |b3| > 0
    ensures Kept([b1, [], b2, b3]) == [b1, b2, b3]
    ensures Concat(Kept([b1, [], b2, b3])) == b1 + b2 + b3
  {
    var xs := [b1, [], b2, b3];
    assert xs[1..] == [[], b2, b3];
    assert xs[1..][1..] == [b2, b3];
    assert [b2, b3][1..] == [b3];
    assert [b3][1..] == [];
    assert Kept([b3]) == [b3];
    assert Kept([b2, b3]) == [b2, b3];
    assert Kept(xs) == [b1, b2, b3];
    assert [b1, b2, b3][1..] == [b2, b3];
    assert Concat([b3]) == b3;
    assert Concat([b2, b3]) == b2 + b3;
  }

  /** The buffer of recorded chunks, owned by one object instead of module
      scope. */
  class ChunkBuffer {
    var audioChunks: seq<Chunk>

    /** Only non-empty chunks are ever buffered. */
    ghost predicate Valid()
      reads this
    {
      forall i :: 0 <= i < |audioChunks| ==> |audioChunks[i]| > 0
    }

    constructor ()
      ensures Valid() && audioChunks == []
    {
      audioChunks := [];
    }

    /** `ondataavailable`: a chunk with data is appended, an empty one is
        dropped (static/script.js:42-46). */
    method OnDataAvailable(data: Chunk)
      requires Valid()
      modifies this
      ensures Valid()
      ensures audioChunks == old(audioChunks) + Kept([data])
    {
      if |data| > 0 {
        audioChunks := audioChunks + [data];
      }
    }

    /** The start of `handleRecordingStop`: the buffer becomes one WAV blob,
        the buffer is reset, and the form pairs the blob with the target
        language read at this moment (static/script.js:60-64). */
    method HandleRecordingStop(targetLanguage: string) returns (form: UploadForm)
      requires Valid()
      modifies this
      ensures Valid() && audioChunks == []
      ensures form == UploadForm(Blob(Concat(old(audioChunks)), "audio/wav"), "audio.wav", targetLanguage)
    {
      var blob := Blob(Concat(audioChunks), "audio/wav");
      audioChunks := [];
      form := UploadForm(blob, "audio.wav", targetLanguage);
    }
  }

  /** The chunk events of one recording, delivered in order. */
  method DeliverAll(buffer: ChunkBuffer, chunks: seq<Chunk>)
    requires buffer.Valid()
    modifies buffer
    ensures buffer.Valid()
    ensures buffer.audioChunks == old(buffer.audioChunks) + Kept(chunks)
  {
    var i := 0;
    while i < |chunks|
      invariant 0 <= i <= |chunks|
      invariant buffer.Valid()
      invariant buffer.audioChunks == old(buffer.audioChunks) + Kept(chunks[..i])
    {
      KeptAppend(chunks[..i], [chunks[i]]);
      assert chunks[..i + 1] == chunks[..i] + [chunks[i]];
      buffer.OnDataAvailable(chunks[i]);
      i := i + 1;
    }
    assert chunks[..i] == chunks;
  }

  /** One utterance end to end: from an empty buffer, the chunks delivered
      and then finalised give a blob holding exactly the delivered bytes in
      arrival order, and the buffer is empty and reusable. */
  method RecordUtterance(buffer: ChunkBuffer, chunks: seq<Chunk>, targetLanguage: string) returns (form: UploadForm)
    requires buffer.Valid() && buffer.audioChunks == []
    modifies buffer
    ensures buffer.Valid() && buffer.audioChunks == []
    ensures form.audio == Blob(Concat(chunks), "audio/wav")
    ensures form.targetLanguageCode == targetLanguage
  {
    DeliverAll(buffer, chunks);
    assert buffer.audioChunks == Kept(chunks);
    form := buffer.HandleRecordingStop(targetLanguage);
    ConcatKept(chunks);
  }
}
