/** The chunk loop of `SendObservations`. */
module LeRobotTransfer {

  import opened Basics

  const MAX_OBSERVATION_BYTES := 100 * 1024 * 1024

  datatype TransferState = Begin | Middle | End | Unknown

  datatype Chunk = Chunk(state: TransferState, data: seq<byte>)

  datatype Error = AfterEnd | UnexpectedBegin | MiddleBeforeBegin | UnknownState | TooLarge | NoEnd | Empty

  function Payload(chunks: seq<Chunk>): seq<byte> {
    if chunks == [] then [] else chunks[0].data + Payload(chunks[1..])
  }

  /** The states read as a word of (BEGIN MIDDLE*)? END. */
  predicate Framed(chunks: seq<Chunk>) {
    && chunks != [] && chunks[|chunks| - 1].state == End
    && (|chunks| > 1 ==> chunks[0].state == Begin)
    && forall i :: 0 < i < |chunks| - 1 ==> chunks[i].state == Middle
  }

  /** What the protocol accepts. */
  predicate Acceptable(chunks: seq<Chunk>) {
    Framed(chunks) && 0 < |Payload(chunks)| <= MAX_OBSERVATION_BYTES
  }

  lemma {:induction false} PayloadAppend(a: seq<Chunk>, b: seq<Chunk>)
    ensures Payload(a + b) == Payload(a) + Payload(b)
  {
    if a == [] {
      assert a + b == b;
    } else {
      assert (a + b)[1..] == a[1..] + b;
      PayloadAppend(a[1..], b);
    }
  }

  lemma PayloadStep(chunks: seq<Chunk>, i: nat)
    requires i < |chunks|
    ensures Payload(chunks[..i + 1]) == Payload(chunks[..i]) + chunks[i].data
    ensures |Payload(chunks[..i + 1])| <= |Payload(chunks)|
  {
    assert chunks[..i + 1] == chunks[..i] + [chunks[i]];
    PayloadAppend(chunks[..i], [chunks[i]]);
    assert chunks == chunks[..i + 1] + chunks[i + 1..];
    PayloadAppend(chunks[..i + 1], chunks[i + 1..]);
  }

  /** What the loop's two flags know about the first `i` chunks. */
  ghost predicate Seen(chunks: seq<Chunk>, i: nat, started: bool, completed: bool)
    requires i <= |chunks|
  {
    && (started <==> i > 0 && chunks[0].state == Begin)
    && (completed <==> i > 0 && chunks[i - 1].state == End)
    && (i > 1 ==> started)
    && (i > 0 && !started ==> completed)
    && (forall j :: 0 < j < i - 1 ==> chunks[j].state == Middle)
    && (i > 1 && !completed ==> chunks[i - 1].state == Middle)
  }

  /** Accepts a stream exactly when it is framed and its size is positive and within the limit; the payload
      is the chunks' data in order. */
  method Receive(chunks: seq<Chunk>) returns (r: Result<seq<byte>, Error>)
    ensures r.Ok? <==> Acceptable(chunks)
    ensures r.Ok? ==> r.value == Payload(chunks)
    ensures Framed(chunks) && Payload(chunks) == [] ==> r == Err(Empty)
    ensures Framed(chunks) && |Payload(chunks)| > MAX_OBSERVATION_BYTES ==> r == Err(TooLarge)
  {
    hide Payload;
    var payload: seq<byte> := [];
    var started, completed := false, false;
    NoPayload();
    assert chunks[..0] == [];
    for i := 0 to |chunks|
      invariant Seen(chunks, i, started, completed)
      invariant payload == Payload(chunks[..i]) && |payload| <= MAX_OBSERVATION_BYTES
    {
      if completed { return Err(AfterEnd); }
      match chunks[i].state {
        case Begin =>
          if started { return Err(UnexpectedBegin); }
          started := true;
        case Middle =>
          if !started { return Err(MiddleBeforeBegin); }
        case End =>
          completed := true;
        case Unknown =>
          return Err(UnknownState);
      }
      PayloadStep(chunks, i);
      if |payload| + |chunks[i].data| > MAX_OBSERVATION_BYTES { return Err(TooLarge); }
      payload := payload + chunks[i].data;
    }
    assert chunks[..|chunks|] == chunks;
    if !completed { return Err(NoEnd); }
    if payload == [] { return Err(Empty); }
    r := Ok(payload);
  }

  lemma NoPayload()
    ensures Payload([]) == []
  {}
}
