/** The file transfer framing of the room page
    (frontend/src/pages/P2PRoomPage.tsx): `sendFile` sends a `FILE_META:`
    control string, the file in 16 KiB binary chunks and a `FILE_END`
    control string over the data channel; the channel's `onmessage` handler
    collects the chunks and turns them into the received file on
    `FILE_END`. */
module Transfer {
  import opened Wrappers

  /** `16 * 1024`, the sender's chunk size in bytes. */
  const ChunkSize: nat := 16 * 1024

  /** The name used when the meta message carries none. */
  const DefaultName: string := "received.bin"

  /** The log line `sendFile` adds when there is no open channel. */
  const NotOpenLog: string := "datachannel not open"

  /** A file picked for sending: its name and its bytes (its size is the
      number of bytes). */
  datatype File = File(name: string, bytes: seq<bv8>)

  /** A data-channel message.
      - Meta: the string `FILE_META:` + JSON `{name, size}`; `name` is None
        when the JSON has no truthy name (a truthy name that is not a string,
        such as `5`, is not modelled);
      - Chunk: a binary message;
      - End: the string `FILE_END`;
      - Other: any other string message, given by the bytes of the Blob the
        receiver builds from it. */
  datatype Message =
    | Meta(name: Option<string>, size: int)
    | Chunk(data: seq<bv8>)
    | End
    | Other(text: seq<bv8>)
  {
    /** The messages the receiver buffers. */
    predicate IsData() {
      Chunk? || Other?
    }

    /** The bytes the receiver buffers for a data message. */
    function Bytes(): seq<bv8>
      requires IsData()
    {
      if Chunk? then data else text
    }
  }

  function Min(a: int, b: int): int {
    if a <= b then a else b
  }

  /** `file.slice(start, end)`: bounds past the end are clamped. */
  function Slice(bytes: seq<bv8>, start: nat, end: nat): (r: seq<bv8>)
    requires start <= end
    ensures |r| <= end - start
    ensures start < |bytes| ==>
              |r| == Min(end, |bytes|) - start && forall i :: 0 <= i < |r| ==> r[i] == bytes[start + i]
    ensures start >= |bytes| ==> r == []
  {
    bytes[Min(start, |bytes|)..Min(end, |bytes|)]
  }

  // ---------------------------------------------------------------------
  // Sender
  // ---------------------------------------------------------------------

  /** The binary messages of the sending loop, first chunk first. */
  function Chunks(bytes: seq<bv8>): (r: seq<Message>)
    ensures forall i :: 0 <= i < |r| ==> r[i].Chunk? && 0 < |r[i].data| <= ChunkSize
    ensures forall i :: 0 <= i < |r| - 1 ==> |r[i].data| == ChunkSize
    decreases |bytes|
  {
    if |bytes| == 0 then []
    else if |bytes| <= ChunkSize then [Chunk(bytes)]
    else [Chunk(bytes[..ChunkSize])] + Chunks(bytes[ChunkSize..])
  }

  /** Everything `sendFile` sends on an open channel, in order. */
  function Frames(file: File): (r: seq<Message>)
    ensures |r| == |Chunks(file.bytes)| + 2
    ensures r[0] == Meta(Some(file.name), |file.bytes|) && r[|r| - 1] == End
    ensures forall i :: 0 < i < |r| - 1 ==> r[i].Chunk?
  {
    [Meta(Some(file.name), |file.bytes|)] + Chunks(file.bytes) + [End]
  }

  /** A file of S bytes is sent in ceil(S / 16384) chunks; an empty file in
      none. */
  lemma {:induction false} ChunkCount(bytes: seq<bv8>)
    ensures |Chunks(bytes)| == (|bytes| + ChunkSize - 1) / ChunkSize
    decreases |bytes|
  {
    if |bytes| > ChunkSize {
      ChunkCount(bytes[ChunkSize..]);
    }
  }

  /** Chunk i holds the bytes from offset i * 16384 up to the next offset or
      the end of the file: the chunks cover consecutive offsets. */
  lemma {:induction false} ChunkAt(bytes: seq<bv8>, i: nat)
    requires i < |Chunks(bytes)|
    ensures i * ChunkSize < |bytes|
    ensures Chunks(bytes)[i].data == bytes[i * ChunkSize .. Min((i + 1) * ChunkSize, |bytes|)]
    decreases |bytes|
  {
    if i > 0 {
      assert |bytes| > ChunkSize;
      var rest := bytes[ChunkSize..];
      ChunkAt(rest, i - 1);
      assert Chunks(bytes)[i] == Chunks(rest)[i - 1];
      var lo, hi := (i - 1) * ChunkSize, Min(i * ChunkSize, |rest|);
      assert lo + ChunkSize == i * ChunkSize;
      assert hi + ChunkSize == Min((i + 1) * ChunkSize, |bytes|);
      assert rest[lo..hi] == bytes[lo + ChunkSize .. hi + ChunkSize];
    }
  }

  /** The `readyState` of an RTCDataChannel. */
  datatype ReadyState = Connecting | Open | Closing | Closed

  /** The sending side of a data channel: its state and what has been sent
      on it. */
  class DataChannel {
    var readyState: ReadyState
    var sent: seq<Message>

    constructor (readyState: ReadyState)
      ensures this.readyState == readyState && sent == []
    {
      this.readyState := readyState;
      sent := [];
    }

    /** `dc.send(message)` */
    method Send(m: Message)
      modifies this`sent
      ensures sent == old(sent) + [m]
    {
      sent := sent + [m];
    }
  }

  /** sendFile: without an open channel only log; otherwise send the meta
      message, the chunks from offset 0 in steps of 16384 while the offset
      is below the size, then the end message. `log` is the page's log. */
  method SendFile(dc: DataChannel?, file: File, log: seq<string>) returns (newLog: seq<string>)
    modifies dc
    ensures dc != null ==> dc.readyState == old(dc.readyState)
    ensures dc == null || dc.readyState != Open ==>
              newLog == log + [NotOpenLog] && (dc != null ==> dc.sent == old(dc.sent))
    ensures dc != null && dc.readyState == Open ==>
              newLog == log && dc.sent == old(dc.sent) + Frames(file)
  {
    if dc == null || dc.readyState != Open {
      return log + [NotOpenLog];
    }
    newLog := log;
    var bytes := file.bytes;
    dc.Send(Meta(Some(file.name), |bytes|));
    var offset := 0;
    while offset < |bytes|
      invariant 0 <= offset
      invariant dc.readyState == old(dc.readyState)
      invariant dc.sent + Chunks(bytes[Min(offset, |bytes|)..]) ==
                old(dc.sent) + [Meta(Some(file.name), |bytes|)] + Chunks(bytes)
    {
      var buf := Slice(bytes, offset, offset + ChunkSize);
      if |bytes| - offset <= ChunkSize {
        assert buf == bytes[offset..];
        assert bytes[Min(offset + ChunkSize, |bytes|)..] == [];
      } else {
        assert bytes[offset..][..ChunkSize] == buf;
        assert bytes[offset..][ChunkSize..] == bytes[offset + ChunkSize..];
      }
      assert Chunks(bytes[offset..]) == [Chunk(buf)] + Chunks(bytes[Min(offset + ChunkSize, |bytes|)..]);
      dc.Send(Chunk(buf));
      offset := offset + ChunkSize;
    }
    assert bytes[Min(offset, |bytes|)..] == [];
    assert Chunks(bytes[Min(offset, |bytes|)..]) == [];
    assert dc.sent == old(dc.sent) + [Meta(Some(file.name), |bytes|)] + Chunks(bytes);
    dc.Send(End);
    assert dc.sent == old(dc.sent) + ([Meta(Some(file.name), |bytes|)] + Chunks(bytes) + [End]);
  }

  // ---------------------------------------------------------------------
  // Receiver
  // ---------------------------------------------------------------------

  /** The receiving page's state: the buffered chunks (`chunksRef`), the
      file name to download under, and the last file delivered (the bytes
      behind `receivingFileUrl`, None before the first `FILE_END`). */
  datatype ReceiverState = ReceiverState(chunks: seq<seq<bv8>>, fileName: string, received: Option<seq<bv8>>)

  /** The state of a page that has received nothing. */
  const Fresh: ReceiverState := ReceiverState([], DefaultName, None)

  /** `meta.name || 'received.bin'`: a missing or empty name falls back. */
  function ReceivedName(name: Option<string>): (r: string)
    ensures r != ""
    ensures name.Some? && name.value != "" ==> r == name.value
    ensures name.None? || name.value == "" ==> r == DefaultName
  {
    if name.Some? && name.value != "" then name.value else DefaultName
  }

  /** `new Blob(chunks)`: the segments' bytes, in order. */
  function Concat(segments: seq<seq<bv8>>): (r: seq<bv8>)
    ensures |segments| == 0 ==> r == []
    ensures |segments| > 0 ==> segments[0] <= r
  {
    if |segments| == 0 then [] else segments[0] + Concat(segments[1..])
  }

  /** Concatenation of the segments respects splitting the segment list. */
  lemma {:induction false} ConcatAppend(a: seq<seq<bv8>>, b: seq<seq<bv8>>)
    ensures Concat(a + b) == Concat(a) + Concat(b)
  {
    if |a| > 0 {
      assert (a + b)[1..] == a[1..] + b;
      ConcatAppend(a[1..], b);
    } else {
      assert a + b == b;
    }
  }

  /** The `onmessage` handler on one message. */
  function Receive(st: ReceiverState, m: Message): (r: ReceiverState)
    ensures r.received != st.received ==> m.End?
    ensures m.IsData() ==> r == st.(chunks := st.chunks + [m.Bytes()])
    ensures !m.IsData() ==> r.chunks == []
    ensures r.fileName != st.fileName ==> m.Meta?
  {
    match m
    case Meta(name, _) => st.(chunks := [], fileName := ReceivedName(name))
    case End => st.(chunks := [], received := Some(Concat(st.chunks)))
    case Chunk(data) => st.(chunks := st.chunks + [data])
    case Other(text) => st.(chunks := st.chunks + [text])
  }

  /** The handler on a sequence of messages, first to last. */
  function ReceiveAll(st: ReceiverState, ms: seq<Message>): ReceiverState
    decreases |ms|
  {
    if |ms| == 0 then st else ReceiveAll(Receive(st, ms[0]), ms[1..])
  }

  /** The bytes of a run of data messages, one segment per message. */
  function Segments(ms: seq<Message>): (r: seq<seq<bv8>>)
    requires forall i :: 0 <= i < |ms| ==> ms[i].IsData()
    ensures |r| == |ms|
  {
    if |ms| == 0 then [] else [ms[0].Bytes()] + Segments(ms[1..])
  }

  lemma {:induction false} ReceiveAllAppend(st: ReceiverState, a: seq<Message>, b: seq<Message>)
    ensures ReceiveAll(st, a + b) == ReceiveAll(ReceiveAll(st, a), b)
    decreases |a|
  {
    if |a| > 0 {
      assert (a + b)[1..] == a[1..] + b;
      ReceiveAllAppend(Receive(st, a[0]), a[1..], b);
    } else {
      assert a + b == b;
    }
  }

  /** Data messages are buffered unchanged, in arrival order, and nothing
      else changes. */
  lemma {:induction false} ReceiveData(st: ReceiverState, ms: seq<Message>)
    requires forall i :: 0 <= i < |ms| ==> ms[i].IsData()
    ensures ReceiveAll(st, ms) == st.(chunks := st.chunks + Segments(ms))
    decreases |ms|
  {
    if |ms| > 0 {
      var st' := Receive(st, ms[0]);
      assert st'.chunks == st.chunks + [ms[0].Bytes()];
      ReceiveData(st', ms[1..]);
      assert Segments(ms) == [ms[0].Bytes()] + Segments(ms[1..]);
      assert st.chunks + Segments(ms) == st'.chunks + Segments(ms[1..]);
    } else {
      assert st.chunks + Segments(ms) == st.chunks;
    }
  }

  /** A file is delivered only on `FILE_END`, and it is the concatenation
      of everything buffered, in arrival order; the buffer is then empty. */
  lemma EndDeliversBuffered(st: ReceiverState, ms: seq<Message>)
    requires forall i :: 0 <= i < |ms| ==> ms[i].IsData()
    ensures ReceiveAll(st, ms + [End]) ==
              st.(chunks := [], received := Some(Concat(st.chunks + Segments(ms))))
  {
    ReceiveAllAppend(st, ms, [End]);
    ReceiveData(st, ms);
  }

  /** Without `FILE_END` nothing is delivered. */
  lemma {:induction false} NoEndNoDelivery(st: ReceiverState, ms: seq<Message>)
    requires forall i :: 0 <= i < |ms| ==> ms[i] != End
    ensures ReceiveAll(st, ms).received == st.received
    decreases |ms|
  {
    if |ms| > 0 {
      NoEndNoDelivery(Receive(st, ms[0]), ms[1..]);
    }
  }

  /** The chunks of a file put back together are the file. */
  lemma {:induction false} ChunksConcat(bytes: seq<bv8>)
    ensures Concat(Segments(Chunks(bytes))) == bytes
    decreases |bytes|
  {
    if |bytes| > ChunkSize {
      var rest := bytes[ChunkSize..];
      ChunksConcat(rest);
      assert Segments(Chunks(bytes)) == [bytes[..ChunkSize]] + Segments(Chunks(rest));
      assert bytes == bytes[..ChunkSize] + rest;
    } else if |bytes| > 0 {
      assert Segments(Chunks(bytes)) == [bytes];
      assert Concat([bytes]) == bytes + Concat([]);
    }
  }

  /** Round trip: whatever state the receiver is in, the messages sendFile
      sends deliver exactly the file's bytes under the sent name (or the
      default name when it is empty) and leave the buffer empty. */
  lemma RoundTrip(st: ReceiverState, file: File)
    ensures ReceiveAll(st, Frames(file)) ==
              ReceiverState([], ReceivedName(Some(file.name)), Some(file.bytes))
  {
    var meta := Meta(Some(file.name), |file.bytes|);
    var chunks := Chunks(file.bytes);
    assert Frames(file) == [meta] + (chunks + [End]);
    ReceiveAllAppend(st, [meta], chunks + [End]);
    var afterMeta := ReceiveAll(st, [meta]);
    assert afterMeta == st.(chunks := [], fileName := ReceivedName(Some(file.name)));
    EndDeliversBuffered(afterMeta, chunks);
    ChunksConcat(file.bytes);
    assert afterMeta.chunks + Segments(chunks) == Segments(chunks);
  }

  /** A transfer cut off before `FILE_END` (the connection closed
      mid-stream) delivers nothing to a receiver that had delivered nothing
      before. */
  lemma IncompleteTransfer(file: File, n: nat)
    requires n < |Frames(file)|
    ensures ReceiveAll(Fresh, Frames(file)[..n]).received == None
  {
    var frames := Frames(file);
    forall i | 0 <= i < n ensures frames[..n][i] != End {
      assert i < |frames| - 1;
      if i > 0 {
        assert frames[i] == Chunks(file.bytes)[i - 1];
      }
    }
    NoEndNoDelivery(Fresh, frames[..n]);
  }

  /** The receiving side of the data channel: `chunksRef` and the two
      pieces of page state its `onmessage` handler sets. */
  class FileReceiver {
    var chunks: seq<seq<bv8>>
    var fileName: string
    var received: Option<seq<bv8>>

    function State(): ReceiverState
      reads this
    {
      ReceiverState(chunks, fileName, received)
    }

    constructor ()
      ensures State() == Fresh
    {
      chunks := [];
      fileName := DefaultName;
      received := None;
    }

    /** `dc.onmessage` */
    method OnMessage(m: Message)
      modifies this
      ensures State() == Receive(old(State()), m)
      ensures m.Meta? ==> chunks == [] && fileName == ReceivedName(m.name) && received == old(received)
      ensures m.End? ==> chunks == [] && fileName == old(fileName) && received == Some(Concat(old(chunks)))
      ensures m.IsData() ==> chunks == old(chunks) + [m.Bytes()] && fileName == old(fileName) && received == old(received)
    {
      match m {
        case Meta(name, _) =>
          fileName := ReceivedName(name);
          chunks := [];
        case End =>
          received := Some(Concat(chunks));
          chunks := [];
        case Chunk(data) =>
          chunks := chunks + [data];
        case Other(text) =>
          chunks := chunks + [text];
      }
    }
  }
}
