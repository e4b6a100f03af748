/** The bounded request-body accumulator that the create and update
    handlers run before decoding: chunks of the payload stream are appended
    to a buffer, and reading stops with an error as soon as one more chunk
    would take the buffer past the ceiling. */
module Body {
  import opened Products

  newtype byte = x: int | 0 <= x < 256

  /** The ceiling on an in-memory body: 256 KiB. */
  const MAX_SIZE: nat := 262_144

  /** One item of the payload stream: a chunk of bytes, or the error the
      stream yields in place of a chunk. */
  datatype Chunk = Bytes(data: seq<byte>) | Broken

  /** Every item of the stream is a chunk of bytes. */
  predicate AllBytes(payload: seq<Chunk>)
  {
    forall i :: 0 <= i < |payload| ==> payload[i].Bytes?
  }

  /** The bytes of the stream's chunks, in order (an error item adds none). */
  function Concat(payload: seq<Chunk>): seq<byte>
  {
    if payload == [] then []
    else (if payload[0].Bytes? then payload[0].data else []) + Concat(payload[1..])
  }

  /** The outcome of reading the rest of the stream `payload` onto a buffer
      that already holds `body`, one item at a time. */
  function ReadFrom(payload: seq<Chunk>, body: seq<byte>): Result<seq<byte>>
  {
    if payload == [] then Ok(body)
    else match payload[0]
      case Broken => Err(StreamError)
      case Bytes(c) =>
        if |body| + |c| > MAX_SIZE then Err(Overflow)
        else ReadFrom(payload[1..], body + c)
  }

  /** The outcome of reading a whole stream onto an empty buffer. */
  function Received(payload: seq<Chunk>): Result<seq<byte>>
  {
    ReadFrom(payload, [])
  }

  /** Reading succeeds exactly when the stream has no error item and its
      bytes fit under the ceiling together with what is buffered; the result
      is then the buffer followed by all the bytes.  The only errors are an
      overflow, reported only for bytes that really exceed the ceiling, and a
      stream error, reported only for a stream that has an error item. */
  lemma {:induction false} ReadFromOutcome(payload: seq<Chunk>, body: seq<byte>)
    requires |body| <= MAX_SIZE
    ensures ReadFrom(payload, body).Ok? <==> AllBytes(payload) && |body| + |Concat(payload)| <= MAX_SIZE
    ensures ReadFrom(payload, body).Ok? ==> ReadFrom(payload, body).value == body + Concat(payload)
    ensures ReadFrom(payload, body) == Err(Overflow) ==> |body| + |Concat(payload)| > MAX_SIZE
    ensures ReadFrom(payload, body) == Err(StreamError) ==> !AllBytes(payload)
    ensures ReadFrom(payload, body).Err? ==> ReadFrom(payload, body).error in {Overflow, StreamError}
    decreases |payload|
  {
    if payload != [] {
      var rest := payload[1..];
      assert AllBytes(payload) <==> payload[0].Bytes? && AllBytes(rest) by {
        if payload[0].Bytes? && AllBytes(rest) {
          forall i | 0 <= i < |payload| ensures payload[i].Bytes? {
            if i > 0 { assert payload[i] == rest[i - 1]; }
          }
        }
      }
      match payload[0]
      case Broken =>
      case Bytes(c) =>
        assert Concat(payload) == c + Concat(rest);
        if |body| + |c| <= MAX_SIZE {
          ReadFromOutcome(rest, body + c);
        }
    }
  }

  /** The whole-stream form: the body received is the concatenation of all
      chunks, at most MAX_SIZE bytes long, and exactly the streams without an
      error item whose bytes fit are received. */
  lemma ReceivedOutcome(payload: seq<Chunk>)
    ensures Received(payload).Ok? <==> AllBytes(payload) && |Concat(payload)| <= MAX_SIZE
    ensures Received(payload).Ok? ==> Received(payload).value == Concat(payload)
    ensures Received(payload).Ok? ==> |Received(payload).value| <= MAX_SIZE
    ensures Received(payload).Err? && AllBytes(payload) ==> Received(payload).error == Overflow
  {
    ReadFromOutcome(payload, []);
  }

  /** The ceiling is inclusive, however the bytes are split into chunks: a
      body of exactly 262,144 bytes is received whole, and one byte more is
      refused as an overflow. */
  lemma CeilingIsInclusive(payload: seq<Chunk>)
    requires AllBytes(payload)
    ensures |Concat(payload)| == MAX_SIZE ==> Received(payload) == Ok(Concat(payload))
    ensures |Concat(payload)| == MAX_SIZE + 1 ==> Received(payload) == Err(Overflow)
  {
    ReceivedOutcome(payload);
  }

  /** The `while let Some(chunk) = payload.next()` loop: `chunk?` gives up on
      an error item, a chunk that would take the buffer past MAX_SIZE is
      refused before it is appended, and every other chunk is appended. */
  method ReadBody(payload: seq<Chunk>) returns (r: Result<seq<byte>>)
    ensures r == Received(payload)
    ensures r.Ok? <==> AllBytes(payload) && |Concat(payload)| <= MAX_SIZE
    ensures r.Ok? ==> r.value == Concat(payload) && |r.value| <= MAX_SIZE
  {
    ReceivedOutcome(payload);
    var body: seq<byte> := [];
    var i := 0;
    while i < |payload|
      invariant 0 <= i <= |payload|
      invariant |body| <= MAX_SIZE
      invariant ReadFrom(payload[i..], body) == Received(payload)
    {
      assert payload[i..][1..] == payload[i + 1..];
      match payload[i] {
        case Broken =>
          return Err(StreamError);
        case Bytes(chunk) =>
          if |body| + |chunk| > MAX_SIZE {
            return Err(Overflow);
          }
          body := body + chunk;
      }
      i := i + 1;
    }
    assert payload[i..] == [];
    r := Ok(body);
  }
}
