/**
 * The throughput workers `request_http_download` and `request_http_upload`,
 * one worker at a time.
 *
 * Everything a worker learns from outside is an `Oracle`: the connect
 * outcomes, whether the TLS client can be built, the stop flag as read at the
 * top of each loop iteration, whether that iteration's write or read succeeds,
 * and the wall clock in milliseconds when that iteration builds a head. The
 * shared byte counter is a `SharedCounter` object the worker adds to; the two
 * barrier waits, the heads written, the payload blocks moved and the counter
 * credits are recorded, in order, as the worker's trace of `Event`s.
 */
module Worker {
  import opened Wrappers
  import opened Connection
  import opened RequestHead

  /** Bytes per payload block: the read buffer's length, and the amount credited per block. */
  const BlockSize: nat := 65536

  datatype Direction = Download | Upload

  /** The parsed URL fields the worker uses: host, port (or the scheme's default) and path. */
  datatype Target = Target(host: string, port: Port, path: string)

  datatype Settings = Settings(direction: Direction, target: Target, connectionClose: bool, ssl: bool)

  /**
   * The answers of the environment. Loop iteration `i` reads `stopFlag[i]`;
   * when that is false it makes one write or read whose success is `io[i]`,
   * and a head built in it is stamped `clockMs[i]`. The last flag reading is
   * true, so every run is finite.
   */
  datatype Oracle = Oracle(connects: seq<bool>, tlsOk: bool, stopFlag: seq<bool>, io: seq<bool>, clockMs: seq<nat>)
  {
    predicate Valid() {
      |connects| >= MaxAttempts &&
      |stopFlag| > 0 && stopFlag[|stopFlag| - 1] &&
      |io| >= |stopFlag| && |clockMs| >= |stopFlag|
    }
  }

  datatype Event =
    | StartBarrier          // waited on the start barrier
    | EndBarrier            // waited on the end barrier
    | SendHead(head: string) // a request head was written in full
    | Payload(bytes: nat)   // a payload block was read (download) or written (upload) in full
    | Credit(amount: nat)   // the shared counter was increased by `amount`
    | Abort                 // the thread panicked while setting up TLS

  /** Request cycles ask for 15000 MiB in connection-close mode and 50 MiB otherwise. */
  function ChunkCount(connectionClose: bool): nat {
    if connectionClose then 15_000 else 50
  }

  /** Bytes per request cycle: a whole number of payload blocks. */
  function DataSize(connectionClose: bool): (n: nat)
    ensures n == ChunkCount(connectionClose) * 1024 * 1024
    ensures n % BlockSize == 0
    ensures n / BlockSize == if connectionClose then 240_000 else 800
  {
    ChunkCount(connectionClose) * 1024 * 1024
  }

  /** The head a worker writes when its clock reads `nowMs`. */
  function RequestHeadFor(s: Settings, nowMs: nat): string {
    var hostPort := HostPort(s.target.host, s.target.port);
    match s.direction
    case Download =>
      DownloadHead(s.target.path, nowMs, hostPort, ChunkCount(s.connectionClose), DataSize(s.connectionClose))
    case Upload =>
      UploadHead(s.target.path, nowMs, hostPort, DataSize(s.connectionClose))
  }

  /**
   * The original credits a head's UTF-8 byte length; the model credits its
   * character count. The two agree exactly when the target's host and path
   * are ASCII.
   */
  lemma RequestHeadBytes(s: Settings, nowMs: nat)
    ensures Utf8Length(RequestHeadFor(s, nowMs)) == |RequestHeadFor(s, nowMs)|
        <==> IsAscii(s.target.host) && IsAscii(s.target.path)
  {
    var hostPort := HostPort(s.target.host, s.target.port);
    HostPortAscii(s.target.host, s.target.port);
    AsciiUtf8Length(RequestHeadFor(s, nowMs));
    match s.direction
    case Download =>
      DownloadHeadAscii(s.target.path, nowMs, hostPort, ChunkCount(s.connectionClose), DataSize(s.connectionClose));
    case Upload =>
      UploadHeadAscii(s.target.path, nowMs, hostPort, DataSize(s.connectionClose));
  }

  /** What a successful head write records: upload also credits the head's length. */
  function HeadEvents(d: Direction, head: string): seq<Event> {
    match d
    case Download => [SendHead(head)]
    case Upload => [SendHead(head), Credit(|head|)]
  }

  /** `r` is longer than the events `acc`, keeps their first event and ends with the end-barrier wait. */
  predicate ClosesRun(r: seq<Event>, acc: seq<Event>) {
    |r| > |acc| && (|acc| > 0 ==> r[0] == acc[0]) && r[|r| - 1] == EndBarrier
  }

  /**
   * The measurement loop from iteration `i`, with the local `dataCounter`,
   * after the events `acc`: the whole trace of the worker.
   */
  function RunLoop(s: Settings, o: Oracle, heads: seq<string>, i: nat, dataCounter: nat, acc: seq<Event>): (r: seq<Event>)
    requires o.Valid() && i < |o.stopFlag| && |heads| >= |o.stopFlag|
    ensures ClosesRun(r, acc)
    decreases |o.stopFlag| - i
  {
    if o.stopFlag[i] then
      acc + [EndBarrier]
    else if dataCounter >= DataSize(s.connectionClose) then
      var head := heads[i];
      if o.io[i] then RunLoop(s, o, heads, i + 1, 0, acc + HeadEvents(s.direction, head))
      else acc + [EndBarrier]
    else if o.io[i] then
      RunLoop(s, o, heads, i + 1, dataCounter + BlockSize, acc + [Payload(BlockSize), Credit(BlockSize)])
    else
      acc + [EndBarrier]
  }

  /** The heads a run would write, one per clock reading. */
  function RequestHeads(s: Settings, clockMs: seq<nat>): (heads: seq<string>)
    ensures |heads| == |clockMs|
  {
    if clockMs == [] then []
    else RequestHeads(s, clockMs[..|clockMs| - 1]) + [RequestHeadFor(s, clockMs[|clockMs| - 1])]
  }

  lemma {:induction false} RequestHeadsAt(s: Settings, clockMs: seq<nat>, i: nat)
    requires i < |clockMs|
    ensures RequestHeads(s, clockMs)[i] == RequestHeadFor(s, clockMs[i])
    decreases |clockMs|
  {
    if i < |clockMs| - 1 {
      RequestHeadsAt(s, clockMs[..|clockMs| - 1], i);
    }
  }

  /** An iteration that reads a set flag, or whose I/O fails, ends the run at the end barrier. */
  lemma RunLoopExit(s: Settings, o: Oracle, heads: seq<string>, i: nat, dataCounter: nat, acc: seq<Event>)
    requires o.Valid() && i < |o.stopFlag| && |heads| >= |o.stopFlag|
    requires o.stopFlag[i] || !o.io[i]
    ensures RunLoop(s, o, heads, i, dataCounter, acc) == acc + [EndBarrier]
  {
  }

  /** An iteration that writes a head successfully restarts the cycle with a zero data counter. */
  lemma RunLoopHead(s: Settings, o: Oracle, heads: seq<string>, i: nat, dataCounter: nat, acc: seq<Event>)
    requires o.Valid() && i < |o.stopFlag| && |heads| >= |o.stopFlag|
    requires !o.stopFlag[i] && o.io[i] && dataCounter >= DataSize(s.connectionClose)
    ensures i + 1 < |o.stopFlag|
    ensures RunLoop(s, o, heads, i, dataCounter, acc)
         == RunLoop(s, o, heads, i + 1, 0, acc + HeadEvents(s.direction, heads[i]))
  {
  }

  /** An iteration that moves a block successfully credits it and advances the data counter. */
  lemma RunLoopPayload(s: Settings, o: Oracle, heads: seq<string>, i: nat, dataCounter: nat, acc: seq<Event>)
    requires o.Valid() && i < |o.stopFlag| && |heads| >= |o.stopFlag|
    requires !o.stopFlag[i] && o.io[i] && dataCounter < DataSize(s.connectionClose)
    ensures i + 1 < |o.stopFlag|
    ensures RunLoop(s, o, heads, i, dataCounter, acc)
         == RunLoop(s, o, heads, i + 1, dataCounter + BlockSize, acc + [Payload(BlockSize), Credit(BlockSize)])
  {
  }

  /** A block-aligned data counter below a block-aligned size has room for one more block. */
  lemma NextBlockFits(dataCounter: nat, dataSize: nat)
    requires dataCounter % BlockSize == 0 && dataSize % BlockSize == 0 && dataCounter < dataSize
    ensures dataCounter + BlockSize <= dataSize && (dataCounter + BlockSize) % BlockSize == 0
  {
  }

  /**
   * Formats the head of iteration `i` from the clock reading of that
   * iteration and the parts computed once before the loop.
   */
  method BuildHead(s: Settings, o: Oracle, i: nat, hostPort: string, chunkCount: nat, dataSize: nat) returns (head: string)
    requires i < |o.clockMs|
    requires hostPort == HostPort(s.target.host, s.target.port)
    requires chunkCount == ChunkCount(s.connectionClose) && dataSize == DataSize(s.connectionClose)
    ensures head == RequestHeads(s, o.clockMs)[i]
  {
    RequestHeadsAt(s, o.clockMs, i);
    match s.direction
    case Download =>
      head := DownloadHead(s.target.path, o.clockMs[i], hostPort, chunkCount, dataSize);
    case Upload =>
      head := UploadHead(s.target.path, o.clockMs[i], hostPort, dataSize);
  }

  /**
   * The trace of one worker run: a panicking worker leaves only `Abort`,
   * every other one starts with the start-barrier wait and ends with the
   * end-barrier wait.
   */
  function WorkerTrace(s: Settings, o: Oracle): (t: seq<Event>)
    requires o.Valid()
    ensures |t| >= 1
    ensures t[0] == if Establish(o.connects, s.ssl, o.tlsOk).Panicked? then Abort else StartBarrier
    ensures t[|t| - 1] == if Establish(o.connects, s.ssl, o.tlsOk).Panicked? then Abort else EndBarrier
  {
    match Establish(o.connects, s.ssl, o.tlsOk)
    case Panicked(_) => [Abort]
    case Failed(_, _) => [StartBarrier, EndBarrier]
    case Connected(_, _) => RunLoop(s, o, RequestHeads(s, o.clockMs), 0, DataSize(s.connectionClose), [StartBarrier])
  }

  /** Sum of the credits in a trace. */
  function CreditSum(t: seq<Event>): nat {
    if t == [] then 0
    else CreditSum(t[..|t| - 1]) + (if t[|t| - 1].Credit? then t[|t| - 1].amount else 0)
  }

  /** Credits add up across a concatenation. */
  lemma {:induction false} CreditSumConcat(t: seq<Event>, u: seq<Event>)
    ensures CreditSum(t + u) == CreditSum(t) + CreditSum(u)
    decreases |u|
  {
    if u != [] {
      var u' := u[..|u| - 1];
      assert (t + u)[..|t + u| - 1] == t + u';
      CreditSumConcat(t, u');
    } else {
      assert t + u == t;
    }
  }

  /**
   * The bytes a trace ought to have credited: every payload block, and for
   * upload the heads as well; download never counts its GET heads.
   */
  function CountedBytes(d: Direction, t: seq<Event>): nat {
    if t == [] then 0
    else
      var e := t[|t| - 1];
      CountedBytes(d, t[..|t| - 1]) +
      (if e.Payload? then e.bytes else if e.SendHead? && d == Upload then |e.head| else 0)
  }

  /** The byte counter shared by all workers of a run; workers only add to it. */
  class SharedCounter {
    var total: nat

    constructor (initial: nat)
      ensures total == initial
    {
      total := initial;
    }

    method Add(n: nat)
      modifies this
      ensures total == old(total) + n
    {
      total := total + n;
    }
  }

  /**
   * `request_http_download`: size the request from the mode, connect (or,
   * failing that, pass both barriers and stop), wait at the start barrier, run
   * the measurement loop, and wait at the end barrier.
   */
  method RequestHttpDownload(target: Target, connectionClose: bool, ssl: bool, counter: SharedCounter, o: Oracle)
    returns (trace: seq<Event>)
    requires o.Valid()
    modifies counter
    ensures trace == WorkerTrace(Settings(Download, target, connectionClose, ssl), o)
    ensures counter.total == old(counter.total) + CreditSum(trace)
  {
    var chunkCount := if connectionClose then 15_000 else 50;
    var dataSize := chunkCount * 1024 * 1024;
    var hostPort := HostPort(target.host, target.port);

    var established := MakeConnection(o.connects, ssl, o.tlsOk);
    if established.Panicked? {
      return [Abort];
    }
    if established.Failed? {
      trace := [StartBarrier, EndBarrier];
      return;
    }

    trace := DownloadLoop(Settings(Download, target, connectionClose, ssl), o, hostPort, chunkCount, dataSize, counter);
  }

  /**
   * The loop of `request_http_download`, from the start-barrier wait to the
   * end-barrier wait: until the flag is set, either write a GET head (when the
   * last request is used up) or read one 64 KiB block into the buffer and
   * credit it; any I/O error leaves the loop for the end barrier.
   */
  method DownloadLoop(s: Settings, o: Oracle, hostPort: string, chunkCount: nat, dataSize: nat, counter: SharedCounter)
    returns (trace: seq<Event>)
    requires o.Valid() && s.direction == Download
    requires hostPort == HostPort(s.target.host, s.target.port)
    requires chunkCount == ChunkCount(s.connectionClose) && dataSize == DataSize(s.connectionClose)
    modifies counter
    ensures trace == RunLoop(s, o, RequestHeads(s, o.clockMs), 0, dataSize, [StartBarrier])
    ensures counter.total == old(counter.total) + CreditSum(trace)
  {
    ghost var heads := RequestHeads(s, o.clockMs);
    var dataCounter := dataSize;
    var buffer := new bv8[BlockSize];
    trace := [StartBarrier];
    var i := 0;
    while !o.stopFlag[i]
      invariant i < |o.stopFlag|
      invariant 0 <= dataCounter <= dataSize && dataCounter % BlockSize == 0
      invariant RunLoop(s, o, heads, i, dataCounter, trace) == RunLoop(s, o, heads, 0, dataSize, [StartBarrier])
      invariant counter.total == old(counter.total) + CreditSum(trace)
      decreases |o.stopFlag| - i
    {
      if dataCounter >= dataSize {
        var head := BuildHead(s, o, i, hostPort, chunkCount, dataSize);
        if !o.io[i] {
          RunLoopExit(s, o, heads, i, dataCounter, trace);
          trace := trace + [EndBarrier];
          return;
        }
        RunLoopHead(s, o, heads, i, dataCounter, trace);
        CreditSumConcat(trace, [SendHead(head)]);
        trace := trace + [SendHead(head)];
        dataCounter := 0;
      } else {
        if !o.io[i] {
          RunLoopExit(s, o, heads, i, dataCounter, trace);
          trace := trace + [EndBarrier];
          return;
        }
        RunLoopPayload(s, o, heads, i, dataCounter, trace);
        NextBlockFits(dataCounter, dataSize);
        counter.Add(BlockSize);
        CreditSumConcat(trace, [Payload(buffer.Length), Credit(BlockSize)]);
        trace := trace + [Payload(buffer.Length), Credit(BlockSize)];
        dataCounter := dataCounter + BlockSize;
      }
      i := i + 1;
    }
    RunLoopExit(s, o, heads, i, dataCounter, trace);
    trace := trace + [EndBarrier];
  }

  /**
   * `request_http_upload`: the same outline as the download worker, with the
   * upload payload built once before connecting.
   */
  method RequestHttpUpload(target: Target, connectionClose: bool, ssl: bool, counter: SharedCounter, o: Oracle)
    returns (trace: seq<Event>)
    requires o.Valid()
    modifies counter
    ensures trace == WorkerTrace(Settings(Upload, target, connectionClose, ssl), o)
    ensures counter.total == old(counter.total) + CreditSum(trace)
  {
    var chunkCount := if connectionClose then 15_000 else 50;
    var dataSize := chunkCount * 1024 * 1024;
    var hostPort := HostPort(target.host, target.port);
    var requestChunk := RequestChunk();
    RequestChunkShape();

    var established := MakeConnection(o.connects, ssl, o.tlsOk);
    if established.Panicked? {
      return [Abort];
    }
    if established.Failed? {
      trace := [StartBarrier, EndBarrier];
      return;
    }

    trace := UploadLoop(Settings(Upload, target, connectionClose, ssl), o, hostPort, chunkCount, dataSize, requestChunk, counter);
  }

  /**
   * The loop of `request_http_upload`: write a POST head and credit its
   * length when the last body is complete, otherwise write one chunk of the
   * repeated pattern and credit 65536; any write error leaves the loop.
   */
  method UploadLoop(s: Settings, o: Oracle, hostPort: string, chunkCount: nat, dataSize: nat, requestChunk: string, counter: SharedCounter)
    returns (trace: seq<Event>)
    requires o.Valid() && s.direction == Upload
    requires hostPort == HostPort(s.target.host, s.target.port)
    requires chunkCount == ChunkCount(s.connectionClose) && dataSize == DataSize(s.connectionClose)
    requires |requestChunk| == BlockSize
    modifies counter
    ensures trace == RunLoop(s, o, RequestHeads(s, o.clockMs), 0, dataSize, [StartBarrier])
    ensures counter.total == old(counter.total) + CreditSum(trace)
  {
    ghost var heads := RequestHeads(s, o.clockMs);
    var dataCounter := dataSize;
    trace := [StartBarrier];
    var i := 0;
    while !o.stopFlag[i]
      invariant i < |o.stopFlag|
      invariant 0 <= dataCounter <= dataSize && dataCounter % BlockSize == 0
      invariant RunLoop(s, o, heads, i, dataCounter, trace) == RunLoop(s, o, heads, 0, dataSize, [StartBarrier])
      invariant counter.total == old(counter.total) + CreditSum(trace)
      decreases |o.stopFlag| - i
    {
      if dataCounter >= dataSize {
        var head := BuildHead(s, o, i, hostPort, chunkCount, dataSize);
        if !o.io[i] {
          RunLoopExit(s, o, heads, i, dataCounter, trace);
          trace := trace + [EndBarrier];
          return;
        }
        RunLoopHead(s, o, heads, i, dataCounter, trace);
        counter.Add(|head|);
        CreditSumConcat(trace, [SendHead(head), Credit(|head|)]);
        trace := trace + [SendHead(head), Credit(|head|)];
        dataCounter := 0;
      } else {
        if !o.io[i] {
          RunLoopExit(s, o, heads, i, dataCounter, trace);
          trace := trace + [EndBarrier];
          return;
        }
        RunLoopPayload(s, o, heads, i, dataCounter, trace);
        NextBlockFits(dataCounter, dataSize);
        counter.Add(BlockSize);
        CreditSumConcat(trace, [Payload(|requestChunk|), Credit(BlockSize)]);
        trace := trace + [Payload(|requestChunk|), Credit(BlockSize)];
        dataCounter := dataCounter + BlockSize;
      }
      i := i + 1;
    }
    RunLoopExit(s, o, heads, i, dataCounter, trace);
    trace := trace + [EndBarrier];
  }
}
