/** The executor supervisor's two output streams, one shared byte budget, and the outcome it may report. */
module Output {
  import opened Options
  import opened ByteText

  const CHUNK_BYTES: nat := 64 * 1024

  /** One answer of a nonblocking read. */
  datatype Read = Data(bytes: seq<Byte>) | Eof | WouldBlock | Fault

  /** How far a stream has been read, and whether its end has been seen. */
  datatype Stream = Stream(at: nat, open: bool)

  /** The reads a stream will answer, in order; a read returns at least one byte and at most a chunk. */
  type Script = s: seq<Read> | forall i :: 0 <= i < |s| && s[i].Data? ==> 0 < |s[i].bytes| <= CHUNK_BYTES witness []

  /** Everything the child wrote that the first `k` reads returned. */
  function Written(script: seq<Read>, k: nat): seq<Byte>
    requires k <= |script|
  {
    if k == 0 then []
    else Written(script, k - 1) + if script[k - 1].Data? then script[k - 1].bytes else []
  }

  /** What reads `from` to `until` returned. */
  function Chunks(script: seq<Read>, from: nat, until: nat): seq<Byte>
    requires from <= until <= |script|
    decreases until
  {
    if from == until then []
    else Chunks(script, from, until - 1) + if script[until - 1].Data? then script[until - 1].bytes else []
  }

  predicate DataOnly(script: seq<Read>, from: nat, until: nat)
    requires from <= until <= |script|
  {
    forall i :: from <= i < until ==> script[i].Data?
  }

  /** What of `news` bytes a budget lets through. */
  function Accepted(news: seq<Byte>, budget: nat): seq<Byte> { news[..Min(|news|, budget)] }

  /**
   How one drain ends: data up to its last read, which is an end of file, a read that would block, a
   fault, or, while the child may still be stopped, the first chunk over budget.
   */
  ghost predicate Ends(script: seq<Read>, from: nat, to': nat, open: bool, over: bool, afterStop: bool, r: Result<bool, Failure>)
    requires from <= to' <= |script|
  {
    match r
    case Err(e) => e == ReadFailed && open && from < to' && script[to' - 1].Fault? && DataOnly(script, from, to' - 1)
    case Ok(limit) =>
      if !open then limit == over && from < to' && script[to' - 1].Eof? && DataOnly(script, from, to' - 1)
      else if limit then !afterStop && over && from < to' && DataOnly(script, from, to')
      else Blocked(script, from, to') && (over ==> afterStop)
  }

  /** The last read would block; past the end of the script every read does. */
  ghost predicate Blocked(script: seq<Read>, from: nat, to': nat)
    requires from <= to' <= |script|
  {
    (from < to' && script[to' - 1].WouldBlock? && DataOnly(script, from, to' - 1)) || (to' == |script| && DataOnly(script, from, to'))
  }

  /** A drain misreports whether bytes were lost exactly when, after the stop, it ends on a read that would block. */
  lemma OverflowLost(script: seq<Read>, from: nat, to': nat, open: bool, over: bool, afterStop: bool, limit: bool)
    requires from <= to' <= |script| && Ends(script, from, to', open, over, afterStop, Ok(limit))
    ensures limit != over <==> afterStop && open && over
  {
  }

  datatype Status = Code(code: int) | Signalled(fileSize: bool)

  /** What the loop sees after one round of draining. */
  datatype Tick = Tick(stop: bool, timedOut: bool, status: Option<Status>)

  datatype Outcome =
    | Exited(code: int) | Cancelled | TimedOut | OutputLimit | MemoryLimit | QuotaLimit | InvalidWorkspace | SupervisorError

  datatype Failure = ReadFailed | StillRunning | DescendantsRemain | OutputStillOpen

  /** Why the run stops at a tick, in the supervisor's order of questions. */
  function Decide(tick: Tick, limit: bool): Option<Outcome> {
    if tick.stop then Some(Cancelled)
    else if tick.timedOut then Some(TimedOut)
    else if limit then Some(OutputLimit)
    else match tick.status
      case None => None
      case Some(Code(code)) => Some(Exited(code))
      case Some(Signalled(fileSize)) => Some(if fileSize then QuotaLimit else SupervisorError)
  }

  /** What is reported once the rest of the output and the quotas are known. */
  function Report(outcome: Outcome, over: bool, outOfMemory: bool, quotaExhausted: bool): Outcome {
    if quotaExhausted then QuotaLimit else if outOfMemory then MemoryLimit else if over then OutputLimit else outcome
  }

  /** What was emitted is a prefix of what was read, and all of it while nothing was dropped. */
  ghost predicate Faithful(script: seq<Read>, stream: Stream, sent: seq<Byte>, dropped: bool) {
    && stream.at <= |script|
    && sent <= Written(script, stream.at)
    && (!dropped ==> sent == Written(script, stream.at))
    && (!stream.open ==> 0 < stream.at && script[stream.at - 1].Eof?)
  }

  /** A chunk is emitted up to the budget: the stream stays faithful, and is cut short only for good. */
  lemma AcceptFaithful(script: seq<Read>, stream: Stream, sent: seq<Byte>, dropped: bool, accepted: nat)
    requires Faithful(script, stream, sent, dropped) && stream.at < |script| && script[stream.at].Data?
    requires accepted <= |script[stream.at].bytes| && (dropped ==> accepted == 0)
    ensures Faithful(script, Stream(stream.at + 1, true), sent + script[stream.at].bytes[..accepted],
                     dropped || accepted < |script[stream.at].bytes|)
  {
    var bytes := script[stream.at].bytes;
    assert bytes[..|bytes|] == bytes;
    assert Written(script, stream.at + 1) == Written(script, stream.at) + bytes;
    if !dropped {
      assert (Written(script, stream.at) + bytes)[..|sent| + accepted] == sent + bytes[..accepted];
    } else {
      assert sent + bytes[..0] == sent;
    }
  }

  /** A read without data changes nothing but the position. */
  lemma SkipFaithful(script: seq<Read>, stream: Stream, sent: seq<Byte>, dropped: bool, open: bool)
    requires Faithful(script, stream, sent, dropped) && stream.open && stream.at < |script| && !script[stream.at].Data?
    requires open || script[stream.at].Eof?
    ensures Faithful(script, Stream(stream.at + 1, open), sent, dropped)
  {
  }

  lemma SkipChunks(script: seq<Read>, from: nat, at: nat)
    requires from <= at < |script| && !script[at].Data?
    ensures Chunks(script, from, at + 1) == Chunks(script, from, at)
  {
  }

  /** Emitting chunk by chunk emits what the budget lets through of the whole. */
  lemma AcceptMore(sent0: seq<Byte>, news: seq<Byte>, bytes: seq<Byte>, budget: nat, remaining: nat)
    requires remaining == budget - Min(|news|, budget)
    ensures var accepted := Min(|bytes|, remaining);
            && sent0 + Accepted(news, budget) + bytes[..accepted] == sent0 + Accepted(news + bytes, budget)
            && remaining - accepted == budget - Min(|news + bytes|, budget)
            && (|news + bytes| > budget <==> |news| > budget || accepted < |bytes|)
  {
    if |news| <= budget {
      assert news[..|news|] == news;
      assert (news + bytes)[..|news| + Min(|bytes|, remaining)] == news + bytes[..Min(|bytes|, remaining)];
    } else {
      assert (news + bytes)[..budget] == news[..budget];
    }
  }

  /** Reading on from a state: what was emitted, what is left of the budget, and whether anything was lost. */
  ghost predicate Drained(script: seq<Read>, from: nat, at: nat, sent: seq<Byte>, remaining: nat, dropped: bool,
                          sent0: seq<Byte>, remaining0: nat, dropped0: bool) {
    && from <= at <= |script|
    && var news := Chunks(script, from, at);
       && sent == sent0 + Accepted(news, remaining0)
       && remaining == remaining0 - Min(|news|, remaining0)
       && dropped == (dropped0 || |news| > remaining0)
  }

  lemma SkipDrained(script: seq<Read>, from: nat, at: nat, sent: seq<Byte>, remaining: nat, dropped: bool,
                    sent0: seq<Byte>, remaining0: nat, dropped0: bool)
    requires Drained(script, from, at, sent, remaining, dropped, sent0, remaining0, dropped0) && at < |script| && !script[at].Data?
    ensures Drained(script, from, at + 1, sent, remaining, dropped, sent0, remaining0, dropped0)
    ensures Chunks(script, from, at + 1) == Chunks(script, from, at)
  {
    SkipChunks(script, from, at);
  }

  /** One of the child's output streams: its reads, how far it is read, and the bytes emitted from it. */
  class Pipe {
    const script: Script
    var stream: Stream
    var sent: seq<Byte>

    constructor (answers: Script)
      ensures script == answers && stream == Stream(0, true) && sent == []
    {
      script, stream, sent := answers, Stream(0, true), [];
    }
  }

  class Supervisor {
    const budget: nat
    const stdout: Pipe
    const stderr: Pipe
    var remaining: nat
    /** Some byte the child wrote was not emitted. */
    ghost var dropped: bool

    /** Emitted bytes and the remaining budget add up, and both streams are faithful. */
    ghost predicate Valid()
      reads this, stdout, stderr
    {
      && stdout != stderr
      && |stdout.sent| + |stderr.sent| + remaining == budget
      && (dropped ==> remaining == 0)
      && Faithful(stdout.script, stdout.stream, stdout.sent, dropped)
      && Faithful(stderr.script, stderr.stream, stderr.sent, dropped)
    }

    constructor (outputBytes: nat, out: Script, err: Script)
      ensures Valid() && fresh(stdout) && fresh(stderr) && budget == outputBytes && !dropped
      ensures stdout.script == out && stderr.script == err && stdout.sent == stderr.sent == []
    {
      budget := outputBytes;
      stdout := new Pipe(out);
      stderr := new Pipe(err);
      remaining := outputBytes;
      dropped := false;
    }

    /** Accept one chunk: emit what the budget allows and drop the rest. */
    method Accept(pipe: Pipe, bytes: seq<Byte>) returns (accepted: nat)
      requires Valid() && (pipe == stdout || pipe == stderr) && pipe.stream.open
      requires pipe.stream.at < |pipe.script| && pipe.script[pipe.stream.at] == Data(bytes)
      modifies this, pipe
      ensures Valid()
      ensures pipe.stream == Stream(old(pipe.stream.at) + 1, true)
      ensures accepted == Min(|bytes|, old(remaining)) && remaining == old(remaining) - accepted
      ensures pipe.sent == old(pipe.sent) + bytes[..accepted]
      ensures dropped == (old(dropped) || accepted < |bytes|)
    {
      accepted := Min(|bytes|, remaining);
      AcceptFaithful(pipe.script, pipe.stream, pipe.sent, dropped, accepted);
      pipe.sent := pipe.sent + bytes[..accepted];
      pipe.stream := Stream(pipe.stream.at + 1, true);
      remaining := remaining - accepted;
      dropped := dropped || accepted < |bytes|;
    }

    /** The stream has been drained from a state. */
    ghost predicate Progress(pipe: Pipe, from: nat, sent0: seq<Byte>, remaining0: nat, dropped0: bool)
      reads this, pipe
    {
      Drained(pipe.script, from, pipe.stream.at, pipe.sent, remaining, dropped, sent0, remaining0, dropped0)
    }

    /** A read that would block or ends the stream is consumed with nothing emitted. */
    method Skip(pipe: Pipe, open: bool, ghost from: nat, ghost sent0: seq<Byte>, ghost remaining0: nat, ghost dropped0: bool)
      requires Valid() && (pipe == stdout || pipe == stderr) && pipe.stream.open && Progress(pipe, from, sent0, remaining0, dropped0)
      requires pipe.stream.at < |pipe.script| && !pipe.script[pipe.stream.at].Data? && (open || pipe.script[pipe.stream.at].Eof?)
      modifies pipe`stream
      ensures Valid() && Progress(pipe, from, sent0, remaining0, dropped0)
      ensures pipe.stream == Stream(old(pipe.stream.at) + 1, open)
      ensures Chunks(pipe.script, from, pipe.stream.at) == Chunks(pipe.script, from, old(pipe.stream.at))
    {
      SkipFaithful(pipe.script, pipe.stream, pipe.sent, dropped, open);
      SkipDrained(pipe.script, from, pipe.stream.at, pipe.sent, remaining, dropped, sent0, remaining0, dropped0);
      pipe.stream := Stream(pipe.stream.at + 1, open);
    }

    /** Accept one chunk as part of a drain. */
    method Take(pipe: Pipe, bytes: seq<Byte>, ghost from: nat, ghost sent0: seq<Byte>, ghost remaining0: nat, ghost dropped0: bool) returns (cut: bool)
      requires Valid() && (pipe == stdout || pipe == stderr) && pipe.stream.open && Progress(pipe, from, sent0, remaining0, dropped0)
      requires pipe.stream.at < |pipe.script| && pipe.script[pipe.stream.at] == Data(bytes)
      modifies this, pipe
      ensures Valid() && Progress(pipe, from, sent0, remaining0, dropped0)
      ensures pipe.stream == Stream(old(pipe.stream.at) + 1, true)
      ensures |Chunks(pipe.script, from, pipe.stream.at)| > remaining0 <==>
              cut || |Chunks(pipe.script, from, old(pipe.stream.at))| > remaining0
    {
      ghost var news := Chunks(pipe.script, from, pipe.stream.at);
      AcceptMore(sent0, news, bytes, remaining0, remaining);
      var accepted := Accept(pipe, bytes);
      cut := accepted < |bytes|;
      assert Chunks(pipe.script, from, pipe.stream.at) == news + bytes;
    }

    /**
     Drain one stream until it would block or ends. Without `afterStop` the first byte over budget
     stops it; with it, the rest is read and dropped. What is emitted is what the budget lets through
     of everything read.
     */
    method Drain(pipe: Pipe, afterStop: bool) returns (r: Result<bool, Failure>)
      requires Valid() && (pipe == stdout || pipe == stderr)
      modifies this, pipe
      ensures Valid() && Progress(pipe, old(pipe.stream.at), old(pipe.sent), old(remaining), old(dropped))
      ensures old(pipe.stream.open) ==>
                Ends(pipe.script, old(pipe.stream.at), pipe.stream.at, pipe.stream.open,
                     |Chunks(pipe.script, old(pipe.stream.at), pipe.stream.at)| > old(remaining), afterStop, r)
      ensures old(pipe.stream.open) && r.Ok? ==>
                var over := |Chunks(pipe.script, old(pipe.stream.at), pipe.stream.at)| > old(remaining);
                r.value != over <==> afterStop && pipe.stream.open && over
      ensures !old(pipe.stream.open) ==> r == Ok(false) && pipe.stream == old(pipe.stream)
    {
      if !pipe.stream.open {
        assert pipe.sent + Accepted([], remaining) == pipe.sent;
        return Ok(false);
      }
      ghost var from, remaining0 := pipe.stream.at, remaining;
      r := DrainOpen(pipe, afterStop);
      if r.Ok? {
        OverflowLost(pipe.script, from, pipe.stream.at, pipe.stream.open, |Chunks(pipe.script, from, pipe.stream.at)| > remaining0, afterStop, r.value);
      }
    }

    /** The read loop of a drain. */
    method DrainOpen(pipe: Pipe, afterStop: bool) returns (r: Result<bool, Failure>)
      requires Valid() && (pipe == stdout || pipe == stderr) && pipe.stream.open
      modifies this, pipe
      ensures Valid() && Progress(pipe, old(pipe.stream.at), old(pipe.sent), old(remaining), old(dropped))
      ensures Ends(pipe.script, old(pipe.stream.at), pipe.stream.at, pipe.stream.open,
                   |Chunks(pipe.script, old(pipe.stream.at), pipe.stream.at)| > old(remaining), afterStop, r)
    {
      ghost var from, sent0, remaining0, dropped0 := pipe.stream.at, pipe.sent, remaining, dropped;
      assert sent0 + Accepted([], remaining0) == sent0;
      var overflow, ended := false, None;
      while ended.None?
        invariant Valid() && Progress(pipe, from, sent0, remaining0, dropped0)
        invariant ended.None? ==> Reading(pipe, from, remaining0, overflow, afterStop)
        invariant ended.Some? ==>
                    Ends(pipe.script, from, pipe.stream.at, pipe.stream.open,
                         |Chunks(pipe.script, from, pipe.stream.at)| > remaining0, afterStop, ended.value)
        decreases |pipe.script| - pipe.stream.at, ended.None?
      {
        ended, overflow := ReadOne(pipe, afterStop, overflow, from, sent0, remaining0, dropped0);
      }
      r := ended.value;
    }

    /** Every read so far returned data, and the budget was exceeded only if that does not stop the drain. */
    ghost predicate Reading(pipe: Pipe, from: nat, remaining0: nat, overflow: bool, afterStop: bool)
      reads pipe
    {
      && pipe.stream.open && from <= pipe.stream.at <= |pipe.script| && DataOnly(pipe.script, from, pipe.stream.at)
      && (overflow <==> |Chunks(pipe.script, from, pipe.stream.at)| > remaining0) && (overflow ==> afterStop)
    }

    /** One read of a drain: go on, or end it. */
    method ReadOne(pipe: Pipe, afterStop: bool, overflow0: bool, ghost from: nat, ghost sent0: seq<Byte>, ghost remaining0: nat, ghost dropped0: bool)
      returns (ended: Option<Result<bool, Failure>>, overflow: bool)
      requires Valid() && (pipe == stdout || pipe == stderr) && Progress(pipe, from, sent0, remaining0, dropped0)
      requires Reading(pipe, from, remaining0, overflow0, afterStop)
      modifies this, pipe
      ensures Valid() && Progress(pipe, from, sent0, remaining0, dropped0)
      ensures ended.None? ==> Reading(pipe, from, remaining0, overflow, afterStop) && pipe.stream.at == old(pipe.stream.at) + 1
      ensures ended.Some? ==>
                pipe.stream.at >= old(pipe.stream.at) &&
                Ends(pipe.script, from, pipe.stream.at, pipe.stream.open,
                     |Chunks(pipe.script, from, pipe.stream.at)| > remaining0, afterStop, ended.value)
    {
      overflow := overflow0;
      if pipe.stream.at == |pipe.script| { return Some(Ok(false)), overflow; }
      var read := pipe.script[pipe.stream.at];
      if read.Data? {
        ended, overflow := ReadData(pipe, read.bytes, afterStop, overflow0, from, sent0, remaining0, dropped0);
      } else {
        var r := EndRead(pipe, read, afterStop, overflow, from, sent0, remaining0, dropped0);
        ended := Some(r);
      }
    }

    /** A chunk goes on with the drain, unless it is the first over budget and the child can still be stopped. */
    method ReadData(pipe: Pipe, bytes: seq<Byte>, afterStop: bool, overflow0: bool, ghost from: nat, ghost sent0: seq<Byte>, ghost remaining0: nat, ghost dropped0: bool)
      returns (ended: Option<Result<bool, Failure>>, overflow: bool)
      requires Valid() && (pipe == stdout || pipe == stderr) && Progress(pipe, from, sent0, remaining0, dropped0)
      requires Reading(pipe, from, remaining0, overflow0, afterStop)
      requires pipe.stream.at < |pipe.script| && pipe.script[pipe.stream.at] == Data(bytes)
      modifies this, pipe
      ensures Valid() && Progress(pipe, from, sent0, remaining0, dropped0) && pipe.stream.at == old(pipe.stream.at) + 1
      ensures ended.None? ==> Reading(pipe, from, remaining0, overflow, afterStop)
      ensures ended.Some? ==>
                Ends(pipe.script, from, pipe.stream.at, pipe.stream.open,
                     |Chunks(pipe.script, from, pipe.stream.at)| > remaining0, afterStop, ended.value)
    {
      var cut := Take(pipe, bytes, from, sent0, remaining0, dropped0);
      overflow := overflow0 || cut;
      ended := if cut && !afterStop then Some(Ok(true)) else None;
    }

    /** A read without data ends the drain. */
    method EndRead(pipe: Pipe, read: Read, afterStop: bool, overflow: bool, ghost from: nat, ghost sent0: seq<Byte>, ghost remaining0: nat, ghost dropped0: bool)
      returns (r: Result<bool, Failure>)
      requires Valid() && (pipe == stdout || pipe == stderr) && Progress(pipe, from, sent0, remaining0, dropped0)
      requires Reading(pipe, from, remaining0, overflow, afterStop)
      requires pipe.stream.at < |pipe.script| && read == pipe.script[pipe.stream.at] && !read.Data?
      modifies pipe`stream
      ensures Valid() && Progress(pipe, from, sent0, remaining0, dropped0) && pipe.stream.at == old(pipe.stream.at) + 1
      ensures Ends(pipe.script, from, pipe.stream.at, pipe.stream.open,
                   |Chunks(pipe.script, from, pipe.stream.at)| > remaining0, afterStop, r)
    {
      Skip(pipe, !read.Eof?, from, sent0, remaining0, dropped0);
      r := if read.Eof? then Ok(overflow) else if read.WouldBlock? then Ok(false) else Err(ReadFailed);
    }

    /** Drain both streams; the second is drained whatever the first reports. */
    method DrainBoth(afterStop: bool) returns (r: Result<bool, Failure>)
      requires Valid()
      modifies this, stdout, stderr
      ensures Valid()
      ensures r.Err? ==> r.error == ReadFailed
      ensures r.Ok? && (!afterStop || (!stdout.stream.open && !stderr.stream.open)) ==> dropped == (old(dropped) || r.value)
    {
      var first := Drain(stdout, afterStop);
      if first.Err? { return first; }
      var second := Drain(stderr, afterStop);
      if second.Err? { return second; }
      r := Ok(first.value || second.value);
    }

    /** The run loop: drain, then stop for the first cause in the supervisor's order. */
    method Loop(ticks: seq<Tick>) returns (r: Result<Outcome, Failure>, ghost at: nat)
      requires Valid() && !dropped
      modifies this, stdout, stderr
      ensures Valid()
      ensures r.Ok? ==> at < |ticks| && Decide(ticks[at], dropped) == Some(r.value)
      ensures r.Ok? ==> forall j :: 0 <= j < at ==> Decide(ticks[j], false) == None
      ensures r == Err(StillRunning) ==> !dropped && forall j :: 0 <= j < |ticks| ==> Decide(ticks[j], false) == None
    {
      at := 0;
      for i := 0 to |ticks|
        invariant Valid() && !dropped
        invariant forall j :: 0 <= j < i ==> Decide(ticks[j], false) == None
      {
        at := i;
        var limit := DrainBoth(false);
        if limit.Err? { return Err(limit.error), at; }
        if ticks[i].stop { return Ok(Cancelled), at; }
        if ticks[i].timedOut { return Ok(TimedOut), at; }
        if limit.value { return Ok(OutputLimit), at; }
        if ticks[i].status.Some? {
          return Ok(match ticks[i].status.value
                    case Code(code) => Exited(code)
                    case Signalled(fileSize) => if fileSize then QuotaLimit else SupervisorError), at;
        }
      }
      r := Err(StillRunning);
    }

    /**
     The whole supervised run up to the export. Whatever happens, emitted bytes plus the remaining
     budget add up to the budget and each stream is a prefix of what the child wrote. The outcome is
     that of the first tick with a cause, overruled by output lost later, memory and quotas; and
     `Exited` means both streams ended and every byte of both was emitted.
     */
    method Supervise(ticks: seq<Tick>, quiesced: bool, outOfMemory: bool, quotaExhausted: bool)
      returns (r: Result<Outcome, Failure>, ghost at: nat, ghost cut: bool, ghost over: bool)
      requires Valid() && !dropped
      modifies this, stdout, stderr
      ensures Valid()
      ensures r.Ok? ==> quiesced && !stdout.stream.open && !stderr.stream.open && dropped == (cut || over)
      ensures r.Ok? ==> at < |ticks| && Decide(ticks[at], cut).Some?
                        && r.value == Report(Decide(ticks[at], cut).value, over, outOfMemory, quotaExhausted)
      ensures r.Ok? ==> forall j :: 0 <= j < at ==> Decide(ticks[j], false) == None
      ensures r.Ok? && r.value.Exited? ==>
                && !dropped
                && stdout.sent == Written(stdout.script, stdout.stream.at)
                && stderr.sent == Written(stderr.script, stderr.stream.at)
    {
      var ended;
      ended, at := Loop(ticks);
      cut, over := dropped, false;
      if ended.Err? { return ended, at, cut, over; }
      var outcome := ended.value;
      if !quiesced { return Err(DescendantsRemain), at, cut, over; }
      var limit := DrainBoth(true);
      if limit.Err? { return Err(limit.error), at, cut, over; }
      over := limit.value;
      if stdout.stream.open || stderr.stream.open { return Err(OutputStillOpen), at, cut, over; }
      if limit.value { outcome := OutputLimit; }
      if outOfMemory { outcome := MemoryLimit; }
      if quotaExhausted { outcome := QuotaLimit; }
      r := Ok(outcome);
    }
  }

  /** A child that writes two bytes and then keeps its stream open. */
  function TwoBytes(): (script: Script)
    ensures |script| == 2 && script[0] == Data([7, 7]) && script[1] == WouldBlock
  {
    [Data([7, 7]), WouldBlock]
  }

  lemma TwoBytesRead(script: seq<Read>)
    requires script == TwoBytes()
    ensures Chunks(script, 0, 2) == [7, 7] && Written(script, 2) == [7, 7]
  {
    assert Chunks(script, 0, 0) == [] && Chunks(script, 0, 1) == [7, 7];
    assert Written(script, 0) == [] && Written(script, 1) == [7, 7];
  }

  lemma OneByteEmitted(script: seq<Read>, at: nat, open: bool, over: bool, r: Result<bool, Failure>, sent: seq<Byte>, remaining: nat, dropped: bool)
    requires script == TwoBytes() && at <= 2 && Ends(script, 0, at, open, over, true, r)
    requires Drained(script, 0, at, sent, remaining, dropped, [], 1, false)
    ensures at == 2 && r == Ok(false) && sent == [7] && dropped
  {
    TwoBytesRead(script);
    assert Accepted([7, 7], 1) == [7];
  }

  /** Two bytes written, one emitted, and the drain after the stop reports nothing lost. */
  method LostOverflow() returns (r: Result<bool, Failure>, written: seq<Byte>, emitted: seq<Byte>)
    ensures r == Ok(false) && written == [7, 7] && emitted == [7]
  {
    var s := new Supervisor(1, TwoBytes(), []);
    var pipe := s.stdout;
    r := s.Drain(pipe, true);
    OneByteEmitted(pipe.script, pipe.stream.at, pipe.stream.open, |Chunks(pipe.script, 0, pipe.stream.at)| > 1, r, pipe.sent, s.remaining, s.dropped);
    TwoBytesRead(pipe.script);
    written, emitted := Written(pipe.script, pipe.stream.at), pipe.sent;
  }
}
