/** The buffered blob-store channel of a Pipes session: messages wait in a queue and are uploaded
    in numbered, newline-separated chunks. This module holds the values and the code of one thread
    that runs undisturbed; `PipesProtocol` interleaves the threads. */
module PipesChannel {
  import opened Text

  /** The JSON text of one message: not empty, and on one line. */
  type Line = s: string | s != "" && '\n' !in s witness "{}"

  datatype Chunk = Chunk(index: nat, payload: string)

  /** `lastUpload` and every clock reading are wall-clock times in microseconds. */
  datatype Channel = Channel(queue: seq<Line>, chunks: seq<Chunk>, counter: nat, lastUpload: int)

  const MICROS_PER_SECOND := 1_000_000
  const SECONDS_PER_DAY := 86_400

  function Payload(items: seq<Line>): string {
    Join(items, "\n")
  }

  /** What the reader of the blob store gets from the chunks, in index order. */
  function Delivered(chunks: seq<Chunk>): seq<string> {
    if chunks == [] then []
    else Delivered(chunks[..|chunks| - 1]) + Split(chunks[|chunks| - 1].payload, '\n')
  }

  /** The indices used so far are exactly 1, 2, ..., counter - 1. */
  ghost predicate Numbered(ch: Channel) {
    && ch.counter == |ch.chunks| + 1
    && forall i :: 0 <= i < |ch.chunks| ==> ch.chunks[i].index == i + 1
  }

  /** `(now - last).seconds`: the seconds of a timedelta are less than one day, whatever its days. */
  function ElapsedSeconds(now: int, last: int): int {
    (now - last) / MICROS_PER_SECOND % SECONDS_PER_DAY
  }

  predicate Due(now: int, last: int, interval: real) {
    ElapsedSeconds(now, last) as real > interval
  }

  /** Uploads a drained batch; an empty payload is not uploaded. */
  function UploadBatch(ch: Channel, items: seq<Line>, now: int): Channel {
    var payload := Payload(items);
    if |payload| > 0
    then ch.(chunks := ch.chunks + [Chunk(ch.counter, payload)], lastUpload := now, counter := ch.counter + 1)
    else ch
  }

  /** One pass of the upload loop that no other thread disturbs, and whether it leaves the loop. */
  function Iteration(ch: Channel, now: int, closed: bool, interval: real): (Channel, bool) {
    if ch.queue == [] && closed then (ch, true)
    else if closed || Due(now, ch.lastUpload, interval)
    then (UploadBatch(ch.(queue := []), ch.queue, now), false)
    else (ch, false)
  }

  lemma PayloadEmpty(items: seq<Line>)
    ensures Payload(items) == "" <==> items == []
  {
    if |items| > 1 {
      assert Payload(items) == items[0] + "\n" + Join(items[1..], "\n");
      assert |items[0] + "\n"| > 0;
    }
  }

  /** A batch reaches the reader whole and in order, and takes the next index. */
  lemma BatchDelivered(ch: Channel, items: seq<Line>, now: int)
    requires Numbered(ch)
    ensures Numbered(UploadBatch(ch, items, now))
    ensures UploadBatch(ch, items, now).queue == ch.queue
    ensures Delivered(UploadBatch(ch, items, now).chunks) == Delivered(ch.chunks) + items
  {
    PayloadEmpty(items);
    var after := UploadBatch(ch, items, now).chunks;
    if items == [] {
      assert after == ch.chunks;
    } else {
      SplitJoin(items, '\n');
      assert after[..|after| - 1] == ch.chunks;
    }
  }

  /** An undisturbed pass keeps every message, in order, and its numbering. */
  lemma IterationKeepsMessages(ch: Channel, now: int, closed: bool, interval: real)
    requires Numbered(ch)
    ensures var (after, exit) := Iteration(ch, now, closed, interval);
      && Numbered(after)
      && Delivered(after.chunks) + after.queue == Delivered(ch.chunks) + ch.queue
      && (exit ==> after.queue == [])
      && (closed ==> after.queue == [])
  {
    BatchDelivered(ch.(queue := []), ch.queue, now);
  }

  class BlobChannel {
    const interval: real
    var buffer: seq<Line>
    var counter: nat
    var chunks: seq<Chunk>  // what the blob store received
    var lastUpload: int     // start_or_last_upload of the upload thread

    ghost function Value(): Channel
      reads this
    {
      Channel(buffer, chunks, counter, lastUpload)
    }

    constructor (interval: real, start: int)
      ensures Value() == Channel([], [], 1, start) && Numbered(Value())
      ensures this.interval == interval
    {
      this.interval := interval;
      buffer, chunks, counter, lastUpload := [], [], 1, start;
    }

    method WriteMessage(message: Line)
      modifies `buffer
      ensures buffer == old(buffer) + [message]
    {
      buffer := buffer + [message];
    }

    method WriteMessages(messages: seq<Line>)
      modifies `buffer
      ensures buffer == old(buffer) + messages
    {
      for k := 0 to |messages|
        invariant buffer == old(buffer) + messages[..k]
      {
        WriteMessage(messages[k]);
      }
    }

    method FlushMessages() returns (items: seq<Line>)
      modifies `buffer
      ensures items == old(buffer) && buffer == []
    {
      items := [];
      while buffer != []
        invariant items + buffer == old(buffer)
        decreases |buffer|
      {
        items := items + [buffer[0]];
        buffer := buffer[1..];
      }
    }

    method UploadMessagesChunk(payload: string, index: nat)
      modifies `chunks
      ensures chunks == old(chunks) + [Chunk(index, payload)]
    {
      chunks := chunks + [Chunk(index, payload)];
    }

    /** One pass of the upload loop; `exit` says that it broke out of the loop. */
    method UploadIteration(now: int, sessionClosed: bool) returns (exit: bool)
      modifies this
      ensures (Value(), exit) == Iteration(old(Value()), now, sessionClosed, interval)
    {
      if buffer == [] && sessionClosed {
        return true;
      } else if sessionClosed || Due(now, lastUpload, interval) {
        var items := FlushMessages();
        var payload := Payload(items);
        if |payload| > 0 {
          UploadMessagesChunk(payload, counter);
          lastUpload := now;
          counter := counter + 1;
        }
      }
      return false;
    }

    ghost function Total(): seq<string>
      reads this
    {
      Delivered(chunks) + buffer
    }

    /** Other threads put `batch`, then the upload thread makes one pass. */
    method Pass(batch: seq<Line>, now: int, sessionClosed: bool) returns (exit: bool)
      requires Numbered(Value())
      modifies this
      ensures Numbered(Value())
      ensures Total() == old(Total()) + batch
      ensures sessionClosed ==> buffer == []
      ensures exit <==> sessionClosed && old(buffer) + batch == []
    {
      ghost var held := buffer;
      WriteMessages(batch);
      assert Delivered(chunks) + (held + batch) == Delivered(chunks) + held + batch;
      IterationKeepsMessages(Value(), now, sessionClosed, interval);
      exit := UploadIteration(now, sessionClosed);
    }

    /** The whole upload loop when the other threads act only between passes: before pass k they put
        `arrivals[k]`, and after `|arrivals|` passes the session is closed. The loop then ends within
        two more passes with everything uploaded, in the order it was put. */
    method UploadLoop(arrivals: seq<seq<Line>>, clock: seq<int>) returns (passes: nat)
      requires Numbered(Value())
      requires |clock| >= |arrivals| + 2
      modifies this
      ensures |arrivals| < passes <= |arrivals| + 2
      ensures buffer == [] && Numbered(Value())
      ensures Delivered(chunks) == old(Total()) + Flatten(arrivals)
    {
      passes := 0;
      var exit := false;
      while passes < |arrivals|
        invariant passes <= |arrivals| && !exit
        invariant Numbered(Value())
        invariant Total() == old(Total()) + Flatten(arrivals[..passes])
      {
        exit := Pass(arrivals[passes], clock[passes], false);
        FlattenStep(arrivals, passes);
        passes := passes + 1;
      }
      assert arrivals[..passes] == arrivals;
      while !exit
        invariant |arrivals| <= passes <= |arrivals| + 2
        invariant Numbered(Value())
        invariant passes > |arrivals| ==> buffer == []
        invariant passes == |arrivals| + 2 ==> exit
        invariant exit ==> passes > |arrivals|
        invariant Total() == old(Total()) + Flatten(arrivals)
        decreases |arrivals| + 2 - passes
      {
        exit := Pass([], clock[passes], true);
        passes := passes + 1;
      }
    }
  }

  function Flatten(batches: seq<seq<Line>>): seq<string> {
    if batches == [] then [] else Flatten(batches[..|batches| - 1]) + batches[|batches| - 1]
  }

  lemma FlattenStep(batches: seq<seq<Line>>, k: nat)
    requires k < |batches|
    ensures Flatten(batches[..k + 1]) == Flatten(batches[..k]) + batches[k]
  {
    assert batches[..k + 1][..k] == batches[..k];
  }
}
