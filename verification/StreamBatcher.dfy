/** The streaming indexer: documents are buffered per index and forwarded as
    batches. */
module StreamBatcher {
  import opened Outcomes
  import opened BatchRouter

  const FLUSH_DOCS: nat := 512
  const FLUSH_BYTES: nat := 4 * 1024 * 1024

  datatype Message = Message(index: string, document: Document)

  datatype Batch = Batch(index: string, documents: seq<Document>)

  datatype StreamResponse = StreamResponse(indexed: nat, errors: seq<DocumentError>)

  /** A write of the f-th forwarded batch, and whether the client's deadline is
      spent when that write is due. */
  type Write = (nat, Batch) -> Result<BatchResponse>
  type Deadline = nat -> bool

  function Bytes(documents: seq<Document>, size: Document -> nat): nat {
    if documents == [] then 0
    else Bytes(documents[..|documents| - 1], size) + size(documents[|documents| - 1])
  }

  predicate Full(documents: seq<Document>, size: Document -> nat) {
    |documents| >= FLUSH_DOCS || Bytes(documents, size) >= FLUSH_BYTES
  }

  // ---- what correct batches are ----

  /** The batch is a front of the messages: one index, non-empty, below both
      thresholds until its last document, and closed by a threshold, a switch
      of index or the end of the messages. */
  ghost predicate IsFront(batch: Batch, messages: seq<Message>, size: Document -> nat) {
    var n := |batch.documents|;
    && 0 < n <= |messages|
    && (forall i :: 0 <= i < n ==> messages[i] == Message(batch.index, batch.documents[i]))
    && !Full(batch.documents[..n - 1], size)
    && (Full(batch.documents, size) || n == |messages| || messages[n].index != batch.index)
  }

  /** The batches cut a front of the messages, in order. */
  ghost predicate Cuts(batches: seq<Batch>, messages: seq<Message>, size: Document -> nat)
    decreases |batches|
  {
    batches == [] || (IsFront(batches[0], messages, size)
                      && Cuts(batches[1..], messages[|batches[0].documents|..], size))
  }

  function Count(batches: seq<Batch>): nat {
    if batches == [] then 0 else |batches[0].documents| + Count(batches[1..])
  }

  lemma {:induction false} FullGrows(documents: seq<Document>, k: nat, size: Document -> nat)
    requires k <= |documents| && Full(documents[..k], size)
    ensures Full(documents, size)
  {
    if k == |documents| {
      assert documents[..k] == documents;
    } else {
      var front := documents[..|documents| - 1];
      assert front[..k] == documents[..k];
      FullGrows(front, k, size);
    }
  }

  lemma {:induction false} FrontNotLonger(a: Batch, b: Batch, messages: seq<Message>, size: Document -> nat)
    requires IsFront(a, messages, size) && IsFront(b, messages, size)
    ensures |a.documents| <= |b.documents|
  {
    var m, n := |b.documents|, |a.documents|;
    if m < n {
      assert messages[0] == Message(a.index, a.documents[0]) && messages[m] == Message(a.index, a.documents[m]);
      assert messages[0] == Message(b.index, b.documents[0]);
      forall i | 0 <= i < m ensures a.documents[..n - 1][..m][i] == b.documents[i] {
        assert messages[i] == Message(b.index, b.documents[i]);
      }
      assert a.documents[..n - 1][..m] == b.documents;
      FullGrows(a.documents[..n - 1], m, size);
    }
  }

  lemma {:induction false} FrontUnique(a: Batch, b: Batch, messages: seq<Message>, size: Document -> nat)
    requires IsFront(a, messages, size) && IsFront(b, messages, size)
    ensures a == b
  {
    FrontNotLonger(a, b, messages, size);
    FrontNotLonger(b, a, messages, size);
    assert messages[0] == Message(a.index, a.documents[0]) == Message(b.index, b.documents[0]);
    forall i | 0 <= i < |a.documents| ensures a.documents[i] == b.documents[i] {
      assert messages[i] == Message(a.index, a.documents[i]) == Message(b.index, b.documents[i]);
    }
  }

  /** A stream has one batching: shorter cuts are prefixes of longer ones. */
  lemma {:induction false} CutsAgree(a: seq<Batch>, b: seq<Batch>, messages: seq<Message>, size: Document -> nat)
    requires Cuts(a, messages, size) && Cuts(b, messages, size) && |a| <= |b|
    ensures a <= b
  {
    if a != [] {
      FrontUnique(a[0], b[0], messages, size);
      CutsAgree(a[1..], b[1..], messages[|a[0].documents|..], size);
    }
  }

  /** Cuts that use up the messages are equal. */
  lemma {:induction false} BatchingUnique(a: seq<Batch>, b: seq<Batch>, messages: seq<Message>, size: Document -> nat)
    requires Cuts(a, messages, size) && Cuts(b, messages, size) && Count(a) == Count(b) == |messages|
    ensures a == b
  {
    if a == [] || b == [] {
      CountPositive(a, messages, size);
      CountPositive(b, messages, size);
    } else {
      FrontUnique(a[0], b[0], messages, size);
      BatchingUnique(a[1..], b[1..], messages[|a[0].documents|..], size);
    }
  }

  lemma {:induction false} CountPositive(batches: seq<Batch>, messages: seq<Message>, size: Document -> nat)
    requires Cuts(batches, messages, size)
    ensures Count(batches) == 0 <==> batches == []
  {
  }

  /** The messages the batches stand for. */
  function Flatten(batches: seq<Batch>): seq<Message> {
    if batches == [] then []
    else
      var batch := batches[0];
      seq(|batch.documents|, i requires 0 <= i < |batch.documents| => Message(batch.index, batch.documents[i]))
      + Flatten(batches[1..])
  }

  /** The batches concatenate to the messages they cut. */
  lemma {:induction false} CutsConcatenate(batches: seq<Batch>, messages: seq<Message>, size: Document -> nat)
    requires Cuts(batches, messages, size)
    ensures Count(batches) <= |messages| && Flatten(batches) == messages[..Count(batches)]
  {
    if batches != [] {
      var n := |batches[0].documents|;
      CutsConcatenate(batches[1..], messages[n..], size);
      assert messages[..Count(batches)] == messages[..n] + messages[n..][..Count(batches[1..])];
    }
  }

  lemma {:induction false} CutsAppend(batches: seq<Batch>, next: Batch, messages: seq<Message>, size: Document -> nat)
    requires Cuts(batches, messages, size) && Count(batches) <= |messages|
    requires IsFront(next, messages[Count(batches)..], size)
    ensures Cuts(batches + [next], messages, size)
    ensures Count(batches + [next]) == Count(batches) + |next.documents| <= |messages|
  {
    if batches == [] {
      assert (batches + [next])[1..] == [] && messages[0..] == messages;
    } else {
      var n := |batches[0].documents|;
      assert messages[n..][Count(batches[1..])..] == messages[Count(batches)..];
      CutsAppend(batches[1..], next, messages[n..], size);
      assert (batches + [next])[1..] == batches[1..] + [next];
    }
  }

  // ---- what the writes answer ----

  ghost predicate AllWritten(batches: seq<Batch>, write: Write) {
    forall f :: 0 <= f < |batches| ==> write(f, batches[f]).Ok?
  }

  function IndexedBy(batches: seq<Batch>, write: Write): nat {
    if batches == [] then 0
    else
      var f := |batches| - 1;
      IndexedBy(batches[..f], write)
      + (match write(f, batches[f]) case Ok(response) => response.indexed case Err(_) => 0)
  }

  function ErrorsOf(batches: seq<Batch>, write: Write): seq<DocumentError> {
    if batches == [] then []
    else
      var f := |batches| - 1;
      ErrorsOf(batches[..f], write)
      + (match write(f, batches[f]) case Ok(response) => response.errors case Err(_) => [])
  }

  // ---- the loop ----

  /** What was forwarded so far, with the counters the writes updated. */
  datatype Forwarded = Forwarded(sent: seq<Batch>, indexed: nat, errors: seq<DocumentError>)

  ghost predicate Tallied(forwarded: Forwarded, write: Write) {
    && AllWritten(forwarded.sent, write)
    && forwarded.indexed == Cast32(IndexedBy(forwarded.sent, write))
    && forwarded.errors == ErrorsOf(forwarded.sent, write)
  }

  lemma {:induction false} WrapAgain(a: nat, b: nat)
    ensures Cast32(Cast32(a) + b) == Cast32(a + b)
  {
  }

  /** After i messages the rest of the sent batches is buffered, for one
      index and below both thresholds. */
  ghost predicate Buffering(sent: seq<Batch>, index: Option<string>, buffer: seq<Document>, messages: seq<Message>,
                            i: nat, size: Document -> nat)
  {
    && Cuts(sent, messages, size) && Count(sent) + |buffer| == i <= |messages|
    && !Full(buffer, size) && (buffer != [] ==> index.Some?)
    && forall k :: 0 <= k < |buffer| ==> messages[Count(sent) + k] == Message(index.value, buffer[k])
  }

  lemma {:induction false} CloseFront(sent: seq<Batch>, index: string, buffer: seq<Document>,
                                      messages: seq<Message>, i: nat, size: Document -> nat)
    requires Buffering(sent, Some(index), buffer, messages, i, size) && buffer != []
    requires i == |messages| || messages[i].index != index
    ensures IsFront(Batch(index, buffer), messages[Count(sent)..], size)
  {
    var rest := messages[Count(sent)..];
    assert forall k :: 0 <= k < |buffer| ==> rest[k] == messages[Count(sent) + k];
    if Full(buffer[..|buffer| - 1], size) { FullGrows(buffer, |buffer| - 1, size); }
  }

  lemma {:induction false} PushOpen(sent: seq<Batch>, index: string, buffer: seq<Document>, messages: seq<Message>,
                                    i: nat, size: Document -> nat)
    requires Buffering(sent, Some(index), buffer, messages, i, size) && i < |messages| && messages[i].index == index
    requires !Full(buffer + [messages[i].document], size)
    ensures Buffering(sent, Some(index), buffer + [messages[i].document], messages, i + 1, size)
  {
  }

  lemma {:induction false} PushFull(sent: seq<Batch>, index: string, buffer: seq<Document>, messages: seq<Message>,
                                    i: nat, size: Document -> nat)
    requires Buffering(sent, Some(index), buffer, messages, i, size) && i < |messages| && messages[i].index == index
    requires Full(buffer + [messages[i].document], size)
    ensures IsFront(Batch(index, buffer + [messages[i].document]), messages[Count(sent)..], size)
  {
    var filled, rest := buffer + [messages[i].document], messages[Count(sent)..];
    assert filled[..|filled| - 1] == buffer;
    forall k | 0 <= k < |filled| ensures rest[k] == Message(index, filled[k]) {
      assert rest[k] == messages[Count(sent) + k];
    }
  }

  ghost predicate InTime(sent: seq<Batch>, expired: Deadline) {
    forall f :: 0 <= f < |sent| ==> !expired(f)
  }

  /** All batches so far were sent in time, answered, counted and cut the first
      n messages. */
  ghost predicate Progress(forwarded: Forwarded, messages: seq<Message>, n: nat, size: Document -> nat,
                           expired: Deadline, write: Write) {
    && Tallied(forwarded, write) && InTime(forwarded.sent, expired)
    && Cuts(forwarded.sent, messages, size) && Count(forwarded.sent) == n <= |messages|
  }

  /** A write failed, after which nothing was sent. */
  ghost predicate WriteFailed(code: Code, sent: seq<Batch>, write: Write) {
    sent != [] && AllWritten(sent[..|sent| - 1], write) && write(|sent| - 1, sent[|sent| - 1]) == Err(code)
  }

  /** The deadline was spent when a further batch was due. */
  ghost predicate DeadlineSpent(code: Code, sent: seq<Batch>, messages: seq<Message>, expired: Deadline, write: Write) {
    AllWritten(sent, write) && code == DeadlineExceeded && expired(|sent|) && Count(sent) < |messages|
  }

  /** The flush failed, and so will the stream. */
  ghost predicate Refused(code: Code, sent: seq<Batch>, messages: seq<Message>, size: Document -> nat,
                          expired: Deadline, write: Write) {
    && Cuts(sent, messages, size) && InTime(sent, expired)
    && (WriteFailed(code, sent, write) || DeadlineSpent(code, sent, messages, expired, write))
  }

  lemma {:induction false} Answered(before: Forwarded, batch: Batch, response: BatchResponse,
                                    messages: seq<Message>, n: nat, size: Document -> nat, expired: Deadline,
                                    write: Write)
    requires Progress(before, messages, n, size, expired, write) && IsFront(batch, messages[n..], size)
    requires !expired(|before.sent|) && write(|before.sent|, batch) == Ok(response)
    ensures Progress(Forwarded(before.sent + [batch], Cast32(before.indexed + response.indexed),
                               before.errors + response.errors),
                     messages, n + |batch.documents|, size, expired, write)
  {
    CutsAppend(before.sent, batch, messages, size);
    TallyOneMore(before, batch, response, write);
    StillInTime(before.sent, batch, expired);
  }

  lemma {:induction false} StillInTime(sent: seq<Batch>, batch: Batch, expired: Deadline)
    requires InTime(sent, expired) && !expired(|sent|)
    ensures InTime(sent + [batch], expired)
  {
  }

  lemma {:induction false} Failed(before: Forwarded, batch: Batch, code: Code, messages: seq<Message>, n: nat,
                                  size: Document -> nat, expired: Deadline, write: Write)
    requires Progress(before, messages, n, size, expired, write) && IsFront(batch, messages[n..], size)
    requires !expired(|before.sent|) && write(|before.sent|, batch) == Err(code)
    ensures Refused(code, before.sent + [batch], messages, size, expired, write)
  {
    CutsAppend(before.sent, batch, messages, size);
    assert (before.sent + [batch])[..|before.sent|] == before.sent;
    StillInTime(before.sent, batch, expired);
  }

  /** Forward one buffered run, unless it is empty or the deadline is spent. */
  method Flush(before: Forwarded, batch: Batch, expired: Deadline, write: Write,
               ghost messages: seq<Message>, ghost n: nat, ghost size: Document -> nat)
    returns (after: Forwarded, failure: Option<Code>)
    requires Progress(before, messages, n, size, expired, write)
    requires batch.documents != [] ==> IsFront(batch, messages[n..], size)
    ensures failure.None? ==> Progress(after, messages, n + |batch.documents|, size, expired, write)
    ensures failure.Some? ==> Refused(failure.value, after.sent, messages, size, expired, write)
  {
    if batch.documents == [] { return before, None; }
    var f := |before.sent|;
    if expired(f) { return before, Some(DeadlineExceeded); }
    match write(f, batch) {
      case Err(code) =>
        Failed(before, batch, code, messages, n, size, expired, write);
        after, failure := before.(sent := before.sent + [batch]), Some(code);
      case Ok(response) =>
        Answered(before, batch, response, messages, n, size, expired, write);
        after := Forwarded(before.sent + [batch], Cast32(before.indexed + response.indexed),
                           before.errors + response.errors);
        failure := None;
    }
  }

  lemma {:induction false} TallyOneMore(before: Forwarded, batch: Batch, response: BatchResponse, write: Write)
    requires Tallied(before, write) && write(|before.sent|, batch) == Ok(response)
    ensures Tallied(Forwarded(before.sent + [batch], Cast32(before.indexed + response.indexed),
                              before.errors + response.errors), write)
  {
    assert (before.sent + [batch])[..|before.sent|] == before.sent;
    WrapAgain(IndexedBy(before.sent, write), response.indexed);
  }

  // ---- the loop ----

  /** The loop's state after i messages. */
  ghost predicate Running(forwarded: Forwarded, index: Option<string>, buffer: seq<Document>, bytes: nat,
                          messages: seq<Message>, i: nat, size: Document -> nat, expired: Deadline, write: Write)
  {
    && Buffering(forwarded.sent, index, buffer, messages, i, size) && bytes == Bytes(buffer, size)
    && Progress(forwarded, messages, i - |buffer|, size, expired, write)
  }

  lemma {:induction false} StartBuffer(forwarded: Forwarded, index: Option<string>, messages: seq<Message>, i: nat,
                                       size: Document -> nat, expired: Deadline, write: Write)
    requires Progress(forwarded, messages, i, size, expired, write)
    ensures Running(forwarded, index, [], 0, messages, i, size, expired, write)
  {
  }

  /** Forward the buffered run of an index that ended. */
  method FlushRun(before: Forwarded, index: string, buffer: seq<Document>, ghost bytes: nat, expired: Deadline,
                  write: Write, ghost messages: seq<Message>, ghost i: nat, ghost size: Document -> nat)
    returns (after: Forwarded, failure: Option<Code>)
    requires Running(before, Some(index), buffer, bytes, messages, i, size, expired, write)
    requires i == |messages| || messages[i].index != index
    ensures failure.None? ==> Progress(after, messages, i, size, expired, write)
    ensures failure.Some? ==> Refused(failure.value, after.sent, messages, size, expired, write)
  {
    if buffer != [] { CloseFront(before.sent, index, buffer, messages, i, size); }
    after, failure := Flush(before, Batch(index, buffer), expired, write, messages, i - |buffer|, size);
  }

  /** Buffer one message of the current index, forwarding a full buffer. */
  method Push(before: Forwarded, index: string, buffer: seq<Document>, bufferedBytes: nat, document: Document,
              size: Document -> nat, expired: Deadline, write: Write, ghost messages: seq<Message>, ghost i: nat)
    returns (after: Forwarded, filled: seq<Document>, bytes: nat, failure: Option<Code>)
    requires Running(before, Some(index), buffer, bufferedBytes, messages, i, size, expired, write)
    requires i < |messages| && messages[i] == Message(index, document)
    ensures failure.None? ==> Running(after, Some(index), filled, bytes, messages, i + 1, size, expired, write)
    ensures failure.Some? ==> Refused(failure.value, after.sent, messages, size, expired, write)
  {
    assert (buffer + [document])[..|buffer|] == buffer;
    after, filled, bytes, failure := before, buffer + [document], bufferedBytes + size(document), None;
    if |filled| >= FLUSH_DOCS || bytes >= FLUSH_BYTES {
      PushFull(before.sent, index, buffer, messages, i, size);
      after, failure := Flush(before, Batch(index, filled), expired, write, messages, i - |buffer|, size);
      filled, bytes := [], 0;
      if failure.None? { StartBuffer(after, Some(index), messages, i + 1, size, expired, write); }
    } else {
      PushOpen(before.sent, index, buffer, messages, i, size);
    }
  }

  /** The stream broke, dropping what was buffered: less than one batch. */
  ghost predicate Broke(code: Code, sent: seq<Batch>, messages: seq<Message>, ending: Option<Code>,
                        size: Document -> nat, write: Write) {
    && ending == Some(code) && AllWritten(sent, write)
    && exists index, buffer :: Buffering(sent, index, buffer, messages, |messages|, size)
  }

  lemma {:induction false} DropsBuffer(forwarded: Forwarded, index: Option<string>, buffer: seq<Document>, bytes: nat,
                                       messages: seq<Message>, code: Code, size: Document -> nat, expired: Deadline,
                                         write: Write)
    requires Running(forwarded, index, buffer, bytes, messages, |messages|, size, expired, write)
    ensures Broke(code, forwarded.sent, messages, Some(code), size, write)
  {
  }

  /** Forward a stream of messages that ends cleanly or breaks with a code. */
  method IndexDocuments(messages: seq<Message>, ending: Option<Code>, size: Document -> nat, expired: Deadline,
                        write: Write)
    returns (r: Result<StreamResponse>, sent: seq<Batch>)
    ensures Cuts(sent, messages, size) && InTime(sent, expired)
    ensures r.Ok? ==> ending.None? && AllWritten(sent, write) && Count(sent) == |messages|
    ensures r.Ok? ==> r.value == StreamResponse(Cast32(IndexedBy(sent, write)), ErrorsOf(sent, write))
    ensures r.Err? ==> || WriteFailed(r.code, sent, write) || DeadlineSpent(r.code, sent, messages, expired, write)
                       || Broke(r.code, sent, messages, ending, size, write)
  {
    var forwarded, failure := Forwarded([], 0, []), None;
    var currentIndex: Option<string> := None;
    var buffer: seq<Document>, bufferedBytes := [], 0;
    for i := 0 to |messages|
      invariant Running(forwarded, currentIndex, buffer, bufferedBytes, messages, i, size, expired, write)
    {
      var message := messages[i];
      if currentIndex != Some(message.index) {
        if currentIndex.Some? {
          forwarded, failure := FlushRun(forwarded, currentIndex.value, buffer, bufferedBytes, expired, write,
                                         messages, i, size);
          if failure.Some? { return Err(failure.value), forwarded.sent; }
          buffer, bufferedBytes := [], 0;
        }
        currentIndex := Some(message.index);
        StartBuffer(forwarded, currentIndex, messages, i, size, expired, write);
      }
      forwarded, buffer, bufferedBytes, failure :=
        Push(forwarded, message.index, buffer, bufferedBytes, message.document, size, expired, write, messages, i);
      if failure.Some? { return Err(failure.value), forwarded.sent; }
    }
    if ending.Some? {
      DropsBuffer(forwarded, currentIndex, buffer, bufferedBytes, messages, ending.value, size, expired, write);
      return Err(ending.value), forwarded.sent;
    }
    if currentIndex.Some? {
      forwarded, failure := FlushRun(forwarded, currentIndex.value, buffer, bufferedBytes, expired, write,
                                     messages, |messages|, size);
      if failure.Some? { return Err(failure.value), forwarded.sent; }
    }
    r, sent := Ok(StreamResponse(forwarded.indexed, forwarded.errors)), forwarded.sent;
  }
}
