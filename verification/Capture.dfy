/** Bounded capture of a process's two output streams. */
module Capture {
  import opened Records

  const READ_SIZE := 65536

  datatype StreamObservation = StreamObservation(
    total: Option<nat>, observed: nat, retained: nat,
    retainedDigest: Option<seq<Octet>>, completeDigest: Option<seq<Octet>>,
    truncated: Option<bool>, limitHit: bool, limit: int)

  /** How many of `n` bytes a limit lets through. */
  function Min(limit: int, n: nat): nat {
    if limit < 0 then 0 else if limit < n then limit else n
  }

  /** One stream's counters and its retained prefix. The running digest is kept as the bytes it has absorbed. */
  class StreamCapture {
    const limit: int
    var observed: nat
    var kept: seq<Octet>
    var digested: seq<Octet>
    var limitHit: bool
    var completePossible: bool
    /** Everything ever fed. */
    ghost var fed: seq<Octet>

    ghost predicate Valid()
      reads this
    {
      && observed == |fed|
      && kept == fed[..Min(limit, |fed|)]
      && (completePossible ==> digested == fed == kept)
      && limitHit == !completePossible
    }

    constructor (limit: int)
      ensures Valid() && this.limit == limit && fed == [] && completePossible
    {
      this.limit := limit;
      observed, kept, digested, limitHit, completePossible, fed := 0, [], [], false, true, [];
    }

    method Feed(data: seq<Octet>)
      requires Valid()
      modifies this
      ensures Valid() && fed == old(fed) + data
      ensures completePossible == (old(completePossible) && |fed| <= limit)
    {
      observed := observed + |data|;
      if completePossible {
        digested := digested + data;
      }
      var remaining := if limit < |kept| then 0 else limit - |kept|;
      kept := kept + data[..Min(remaining, |data|)];
      fed := fed + data;
      if observed > limit {
        limitHit := true;
        completePossible := false;
      }
    }

    method MarkLimit()
      requires Valid()
      modifies this
      ensures Valid() && fed == old(fed) && limitHit
    {
      limitHit := true;
      completePossible := false;
    }

    /** What is reported. A complete, unmarked stream is reported in full; otherwise no total is claimed. */
    method Snapshot(complete: bool) returns (o: StreamObservation)
      requires Valid()
      ensures o.observed == |fed| && o.retained == Min(limit, |fed|) && o.limit == limit && o.limitHit == limitHit
      ensures o.retainedDigest == if o.retained == 0 then None else Some(fed[..o.retained])
      ensures o.total.Some? <==> complete && !limitHit
      ensures o.total.Some? ==> o.total == Some(|fed|) && o.retained == |fed| && o.truncated == Some(false)
                                && (o.completeDigest == if fed == [] then None else Some(fed))
      ensures o.total.None? ==> o.completeDigest.None? && o.truncated == if limitHit then Some(true) else None
    {
      var digest := if |kept| > 0 then Some(kept) else None;
      if complete && completePossible {
        o := StreamObservation(Some(observed), observed, |kept|, digest, if observed > 0 then Some(digested) else None,
                               Some(false), limitHit, limit);
      } else {
        o := StreamObservation(None, observed, |kept|, digest, None,
                               if limitHit then Some(true) else None, limitHit, limit);
      }
    }
  }

  /** After any sequence of chunks the retained bytes are the first `limit` bytes of everything sent. */
  method FeedAll(limit: int, chunks: seq<seq<Octet>>) returns (c: StreamCapture)
    ensures fresh(c) && c.Valid() && c.limit == limit && c.fed == Joined(chunks)
    ensures c.kept == Joined(chunks)[..Min(limit, |Joined(chunks)|)]
    ensures |Joined(chunks)| <= limit ==> c.kept == Joined(chunks)
    ensures 0 <= limit < |Joined(chunks)| ==> |c.kept| == limit
    ensures limit < 0 ==> c.kept == []
    ensures c.limitHit <==> chunks != [] && |Joined(chunks)| > limit
  {
    c := new StreamCapture(limit);
    for i := 0 to |chunks|
      invariant fresh(c) && c.Valid() && c.fed == Joined(chunks[..i])
      invariant c.completePossible <==> i == 0 || |Joined(chunks[..i])| <= limit
    {
      assert chunks[..i + 1][..i] == chunks[..i];
      c.Feed(chunks[i]);
    }
    assert chunks[..|chunks|] == chunks;
  }

  function Joined(chunks: seq<seq<Octet>>): seq<Octet> {
    if chunks == [] then [] else Joined(chunks[..|chunks| - 1]) + chunks[|chunks| - 1]
  }

  /* ---- The read loop ---- */

  datatype Stream = Stdout | Stderr

  /** What the loop meets: a read that returned data, or nothing at the end of a stream, or the deadline. */
  datatype Event = Read(stream: Stream, data: seq<Octet>) | Deadline

  datatype Failure = InvalidLimit | CommandStart | Timeout | OutputLimit(stream: Stream)

  datatype Completed = Completed(returncode: int, stdout: seq<Octet>, stderr: seq<Octet>)

  predicate ClosedIn(events: seq<Event>, s: Stream) {
    events != [] && (events[|events| - 1] == Read(s, []) || ClosedIn(events[..|events| - 1], s))
  }

  predicate DeadlineIn(events: seq<Event>) {
    events != [] && (events[|events| - 1] == Deadline || DeadlineIn(events[..|events| - 1]))
  }

  /** Both streams end before the deadline. */
  ghost predicate Drains(events: seq<Event>) {
    exists n :: 0 <= n <= |events| && DrainedAt(events, n)
  }

  ghost predicate DrainedAt(events: seq<Event>, n: nat)
    requires n <= |events|
  {
    ClosedIn(events[..n], Stdout) && ClosedIn(events[..n], Stderr) && !DeadlineIn(events[..n])
  }

  lemma {:induction false} DeadlineFound(events: seq<Event>, i: nat)
    requires i < |events| && events[i] == Deadline
    ensures DeadlineIn(events)
  {
    if i < |events| - 1 {
      DeadlineFound(events[..|events| - 1], i);
    }
  }

  /** A deadline met while a stream is still open is the end of it. */
  lemma DeadlineEnds(events: seq<Event>, i: nat)
    requires i < |events| && events[i] == Deadline && !(ClosedIn(events[..i], Stdout) && ClosedIn(events[..i], Stderr))
    ensures !Drains(events)
  {
    if n :| 0 <= n <= |events| && DrainedAt(events, n) {
      if i < n {
        DeadlineFound(events[..n], i);
      } else {
        assert events[..i][..n] == events[..n];
        ClosedGrows(events[..i], n, Stdout);
        ClosedGrows(events[..i], n, Stderr);
      }
    }
  }

  /** What a stream delivered before it ended. */
  function Sent(events: seq<Event>, s: Stream): seq<Octet> {
    if events == [] then []
    else
      var front, e := events[..|events| - 1], events[|events| - 1];
      if e.Read? && e.stream == s && !ClosedIn(front, s) then Sent(front, s) + e.data else Sent(front, s)
  }

  /** A later history only delivers more, and nothing more once the stream has ended. */
  lemma {:induction false} SentGrows(events: seq<Event>, n: nat, s: Stream)
    requires n <= |events|
    ensures Sent(events[..n], s) <= Sent(events, s)
    ensures ClosedIn(events[..n], s) ==> Sent(events[..n], s) == Sent(events, s)
  {
    if n < |events| {
      var front := events[..|events| - 1];
      SentGrows(front, n, s);
      assert front[..n] == events[..n];
      ClosedGrows(front, n, s);
    } else {
      assert events[..n] == events;
    }
  }

  /** The verdict on a run: both streams, and the aggregate total when both are complete. */
  datatype Report = Report(stdout: StreamObservation, stderr: StreamObservation, total: Option<nat>)

  /** The observation of a run: both captures, and the verdict once it is final. */
  class Builder {
    const stdout: StreamCapture
    const stderr: StreamCapture
    var report: Option<Report>

    ghost predicate Valid()
      reads this, stdout, stderr
    {
      stdout != stderr && stdout.Valid() && stderr.Valid()
    }

    constructor (stdoutLimit: int, stderrLimit: int)
      ensures Valid() && fresh(stdout) && fresh(stderr) && report.None?
      ensures stdout.limit == stdoutLimit && stderr.limit == stderrLimit && stdout.fed == [] && stderr.fed == []
      ensures stdout.completePossible && stderr.completePossible
    {
      stdout := new StreamCapture(stdoutLimit);
      stderr := new StreamCapture(stderrLimit);
      report := None;
    }

    function Of(s: Stream): StreamCapture {
      if s == Stdout then stdout else stderr
    }

    /** `completed` and `failed`: the first verdict stays. */
    method Conclude(complete: bool)
      requires Valid()
      modifies this
      ensures Valid() && report.Some?
      ensures old(report).Some? ==> report == old(report)
      ensures old(report).None? ==>
                && report.value.stdout.observed == |stdout.fed| && report.value.stderr.observed == |stderr.fed|
                && report.value.stdout.retained == Min(stdout.limit, |stdout.fed|)
                && report.value.stderr.retained == Min(stderr.limit, |stderr.fed|)
                && report.value.stdout.limit == stdout.limit && report.value.stderr.limit == stderr.limit
                && report.value.stdout.limitHit == stdout.limitHit && report.value.stderr.limitHit == stderr.limitHit
                && (report.value.total.Some? <==> complete && !stdout.limitHit && !stderr.limitHit)
                && (report.value.total.Some? ==> report.value.total.value == |stdout.fed| + |stderr.fed|)
    {
      if report.None? {
        var o := stdout.Snapshot(complete);
        var e := stderr.Snapshot(complete);
        var total := if complete && o.total.Some? && e.total.Some? then Some(o.total.value + e.total.value) else None;
        report := Some(Report(o, e, total));
      }
    }
  }

  /** The caps in force: a missing or zero stderr cap falls back to the output cap. */
  function StderrCap(outputCap: int, stderrCap: Option<int>): int {
    if stderrCap.None? || stderrCap.value == 0 then outputCap else stderrCap.value
  }

  predicate LimitsValid(timeout: real, outputCap: int, stderrCap: Option<int>) {
    timeout > 0.0 && outputCap > 0 && (stderrCap.Some? ==> stderrCap.value > 0)
  }

  function CapOf(s: Stream, outputCap: int, stderrCap: Option<int>): int {
    if s == Stdout then outputCap else StderrCap(outputCap, stderrCap)
  }

  ghost predicate Fits(events: seq<Event>, s: Stream, cap: int) {
    |Sent(events, s)| <= cap
  }

  datatype Pipe = Pipe(buffer: seq<Octet>, open: bool)

  /** The loop state of a stream agrees with what the events so far delivered. */
  ghost predicate Agrees(b: Builder, events: seq<Event>, s: Stream, pipe: Pipe, cap: nat)
    reads b, b.stdout, b.stderr
  {
    && pipe.buffer == Sent(events, s) && b.Of(s).fed == pipe.buffer && b.Of(s).limit == cap && |pipe.buffer| <= cap
    && b.Of(s).completePossible && pipe.open == !ClosedIn(events, s)
  }

  /** What one read does to its stream: an empty one closes it; otherwise the capture sees the data, the buffer grows,
      and past the cap the stream is marked. A stream already closed is no longer watched. */
  method Handle(b: Builder, ghost events: seq<Event>, e: Event, pipe: Pipe, cap: nat) returns (after: Pipe, over: bool)
    requires e.Read? && |e.data| <= READ_SIZE && b.Valid() && Agrees(b, events, e.stream, pipe, cap)
    modifies b.Of(e.stream)
    ensures b.Valid() && |after.buffer| <= cap + READ_SIZE && over == (|Sent(events + [e], e.stream)| > cap)
    ensures if over then b.Of(e.stream).limitHit && b.Of(e.stream).fed == Sent(events + [e], e.stream)
            else Agrees(b, events + [e], e.stream, after, cap)
  {
    NextEvent(events, e, e.stream);
    after, over := pipe, false;
    if pipe.open {
      if e.data == [] {
        after := pipe.(open := false);
      } else {
        b.Of(e.stream).Feed(e.data);
        after := pipe.(buffer := pipe.buffer + e.data);
        if |after.buffer| > cap {
          b.Of(e.stream).MarkLimit();
          over := true;
        }
      }
    }
  }

  lemma NextEvent(events: seq<Event>, e: Event, s: Stream)
    ensures ClosedIn(events + [e], s) <==> ClosedIn(events, s) || e == Read(s, [])
    ensures Sent(events + [e], s) ==
            if e.Read? && e.stream == s && !ClosedIn(events, s) then Sent(events, s) + e.data else Sent(events, s)
  {
    assert (events + [e])[..|events|] == events;
  }

  /** Both streams' loop states. */
  ghost predicate AgreesBoth(b: Builder, events: seq<Event>, out: Pipe, err: Pipe, outCap: nat, errCap: nat)
    reads b, b.stdout, b.stderr
  {
    b.Valid() && Agrees(b, events, Stdout, out, outCap) && Agrees(b, events, Stderr, err, errCap) && !DeadlineIn(events)
  }

  /** One event handed to the stream it belongs to. */
  method Dispatch(b: Builder, ghost events: seq<Event>, e: Event, out: Pipe, err: Pipe, outCap: nat, errCap: nat)
    returns (out': Pipe, err': Pipe, over: bool)
    requires e.Read? && |e.data| <= READ_SIZE && AgreesBoth(b, events, out, err, outCap, errCap)
    modifies b.stdout, b.stderr
    ensures b.Valid() && |out'.buffer| <= outCap + READ_SIZE && |err'.buffer| <= errCap + READ_SIZE
    ensures if over then Overran(b, events + [e], e.stream, if e.stream == Stdout then outCap else errCap)
            else AgreesBoth(b, events + [e], out', err', outCap, errCap)
  {
    NextEvent(events, e, if e.stream == Stdout then Stderr else Stdout);
    out', err' := out, err;
    if e.stream == Stdout {
      out', over := Handle(b, events, e, out, outCap);
    } else {
      err', over := Handle(b, events, e, err, errCap);
    }
    assert (events + [e])[..|events|] == events;
  }

  ghost predicate ReadsBounded(events: seq<Event>) {
    forall i :: 0 <= i < |events| && events[i].Read? ==> |events[i].data| <= READ_SIZE
  }

  ghost predicate Untouched(b: Builder)
    reads b, b.stdout, b.stderr
  {
    b.Valid() && b.stdout.fed == [] && b.stderr.fed == [] && b.stdout.completePossible && b.stderr.completePossible
  }

  /** A stream went past its cap: it is marked, and what it holds is a prefix of what was sent. */
  ghost predicate Overran(b: Builder, events: seq<Event>, s: Stream, cap: int)
    reads b, b.stdout, b.stderr
  {
    !Fits(events, s, cap) && b.Of(s).limitHit && b.Of(s).fed <= Sent(events, s)
  }

  /** Everything a stream sent was kept. */
  ghost predicate Whole(b: Builder, events: seq<Event>, s: Stream, bytes: seq<Octet>, cap: int)
    reads b, b.stdout, b.stderr
  {
    bytes == Sent(events, s) == b.Of(s).fed == b.Of(s).kept && !b.Of(s).limitHit && |bytes| <= cap
  }

  lemma OverranLater(b: Builder, events: seq<Event>, n: nat, s: Stream, cap: nat)
    requires n <= |events| && Overran(b, events[..n], s, cap)
    ensures Overran(b, events, s, cap)
  {
    SentGrows(events, n, s);
  }

  lemma BothWhole(b: Builder, events: seq<Event>, n: nat, out: Pipe, err: Pipe, outCap: nat, errCap: nat)
    requires n <= |events| && AgreesBoth(b, events[..n], out, err, outCap, errCap) && !out.open && !err.open
    ensures Drains(events) && Whole(b, events, Stdout, out.buffer, outCap)
    ensures Whole(b, events, Stderr, err.buffer, errCap)
  {
    SentGrows(events, n, Stdout);
    SentGrows(events, n, Stderr);
    assert DrainedAt(events, n);
  }

  /** The read loop over everything the process and the clock may do; events that run out stand for waiting until the
      deadline. `peaks` are the largest sizes the two buffers ever had. */
  method Drain(events: seq<Event>, outCap: nat, errCap: nat, b: Builder)
    returns (r: Result<(seq<Octet>, seq<Octet>), Failure>, ghost peaks: (nat, nat))
    requires ReadsBounded(events) && Untouched(b) && b.stdout.limit == outCap && b.stderr.limit == errCap
    modifies b.stdout, b.stderr
    ensures b.Valid() && peaks.0 <= outCap + READ_SIZE && peaks.1 <= errCap + READ_SIZE
    ensures match r
            case Ok(bytes) =>
              && Drains(events)
              && Whole(b, events, Stdout, bytes.0, outCap) && Whole(b, events, Stderr, bytes.1, errCap)
            case Err(OutputLimit(s)) => Overran(b, events, s, if s == Stdout then outCap else errCap)
            case Err(Timeout) => !Drains(events)
            case Err(_) => false
  {
    peaks := (0, 0);
    var out, err := Pipe([], true), Pipe([], true);
    var i := 0;
    while i < |events| && (out.open || err.open)
      invariant i <= |events| && AgreesBoth(b, events[..i], out, err, outCap, errCap)
      invariant peaks.0 <= outCap + READ_SIZE && peaks.1 <= errCap + READ_SIZE
    {
      var e := events[i];
      if e.Deadline? {
        DeadlineEnds(events, i);
        return Err(Timeout), peaks;
      }
      assert events[..i + 1] == events[..i] + [e];
      var over;
      out, err, over := Dispatch(b, events[..i], e, out, err, outCap, errCap);
      peaks := (if |out.buffer| > peaks.0 then |out.buffer| else peaks.0,
                if |err.buffer| > peaks.1 then |err.buffer| else peaks.1);
      if over {
        OverranLater(b, events, i + 1, e.stream, if e.stream == Stdout then outCap else errCap);
        return Err(OutputLimit(e.stream)), peaks;
      }
      i := i + 1;
    }
    if out.open || err.open {
      assert events[..|events|] == events;
      NeverDrains(events);
      return Err(Timeout), peaks;
    }
    BothWhole(b, events, i, out, err, outCap, errCap);
    return Ok((out.buffer, err.buffer)), peaks;
  }

  /** `run_bounded`: check the limits, start the command, drain both pipes, wait for the exit. `starts` says whether the
      command can be started, and `exit` is none when waiting for it times out. */
  method RunBounded(events: seq<Event>, timeout: real, outputCap: int, stderrCap: Option<int>, starts: bool,
                    exit: Option<int>, b: Builder)
    returns (r: Result<Completed, Failure>, ghost peaks: (nat, nat))
    requires ReadsBounded(events) && Untouched(b)
    requires LimitsValid(timeout, outputCap, stderrCap) ==>
               b.stdout.limit == outputCap && b.stderr.limit == StderrCap(outputCap, stderrCap)
    modifies b.stdout, b.stderr
    ensures b.Valid() && (r == Err(InvalidLimit) <==> !LimitsValid(timeout, outputCap, stderrCap))
    ensures r == Err(CommandStart) <==> LimitsValid(timeout, outputCap, stderrCap) && !starts
    ensures match r
            case Ok(done) =>
              && exit == Some(done.returncode) && Drains(events)
              && Whole(b, events, Stdout, done.stdout, outputCap)
              && Whole(b, events, Stderr, done.stderr, StderrCap(outputCap, stderrCap))
            case Err(OutputLimit(s)) => Overran(b, events, s, CapOf(s, outputCap, stderrCap))
            case Err(Timeout) => exit.None? || !Drains(events)
            case Err(_) => Untouched(b)
    ensures LimitsValid(timeout, outputCap, stderrCap) ==>
              peaks.0 <= outputCap + READ_SIZE && peaks.1 <= StderrCap(outputCap, stderrCap) + READ_SIZE
  {
    if !LimitsValid(timeout, outputCap, stderrCap) {
      return Err(InvalidLimit), (0, 0);
    }
    if !starts {
      return Err(CommandStart), (0, 0);
    }
    var drained;
    drained, peaks := Drain(events, outputCap, StderrCap(outputCap, stderrCap), b);
    if drained.Err? {
      return Err(drained.error), peaks;
    }
    if exit.None? {
      return Err(Timeout), peaks;
    }
    return Ok(Completed(exit.value, drained.value.0, drained.value.1)), peaks;
  }

  lemma NeverDrains(events: seq<Event>)
    requires !ClosedIn(events, Stdout) || !ClosedIn(events, Stderr)
    ensures !Drains(events)
  {
    if n :| 0 <= n <= |events| && DrainedAt(events, n) {
      ClosedGrows(events, n, Stdout);
      ClosedGrows(events, n, Stderr);
    }
  }

  lemma {:induction false} ClosedGrows(events: seq<Event>, n: nat, s: Stream)
    requires n <= |events|
    ensures ClosedIn(events[..n], s) ==> ClosedIn(events, s)
  {
    if n < |events| {
      ClosedGrows(events[..|events| - 1], n, s);
      assert events[..|events| - 1][..n] == events[..n];
    } else {
      assert events[..n] == events;
    }
  }

  lemma {:induction false} ClosedIff(events: seq<Event>, s: Stream)
    ensures ClosedIn(events, s) <==> exists i :: 0 <= i < |events| && events[i] == Read(s, [])
    ensures DeadlineIn(events) <==> exists i :: 0 <= i < |events| && events[i] == Deadline
  {
    if events != [] {
      var front := events[..|events| - 1];
      ClosedIff(front, s);
      assert forall i :: 0 <= i < |front| ==> front[i] == events[i];
    }
  }

  /** Both streams end, at `i` and `j`, and no deadline comes before. */
  ghost predicate EndAt(events: seq<Event>, i: nat, j: nat)
    requires i < |events| && j < |events|
  {
    && events[i] == Read(Stdout, []) && events[j] == Read(Stderr, [])
    && forall k :: 0 <= k < |events| && (k <= i || k <= j) ==> events[k] != Deadline
  }

  lemma DrainsIff(events: seq<Event>)
    ensures Drains(events) <==> exists i, j :: 0 <= i < |events| && 0 <= j < |events| && EndAt(events, i, j)
  {
    if n :| 0 <= n <= |events| && DrainedAt(events, n) {
      ClosedIff(events[..n], Stdout);
      ClosedIff(events[..n], Stderr);
      var i :| 0 <= i < n && events[..n][i] == Read(Stdout, []);
      var j :| 0 <= j < n && events[..n][j] == Read(Stderr, []);
      forall k | 0 <= k < |events| && (k <= i || k <= j) ensures events[k] != Deadline {
        assert events[..n][k] == events[k];
      }
      assert EndAt(events, i, j);
    }
    if i, j :| 0 <= i < |events| && 0 <= j < |events| && EndAt(events, i, j) {
      var n := 1 + if i < j then j else i;
      ClosedIff(events[..n], Stdout);
      ClosedIff(events[..n], Stderr);
      assert events[..n][i] == Read(Stdout, []) && events[..n][j] == Read(Stderr, []);
      assert DrainedAt(events, n);
    }
  }

  /** A run with its observation: on a normal return both streams were captured whole, and the totals say so. */
  method RunObserved(events: seq<Event>, timeout: real, outputCap: int, stderrCap: Option<int>, starts: bool,
                     exit: Option<int>)
    returns (r: Result<Completed, Failure>, b: Builder)
    requires ReadsBounded(events)
    ensures fresh(b) && b.Valid() && b.report.Some?
    ensures var o, e := b.report.value.stdout, b.report.value.stderr;
            if r.Ok? then
              && o.observed == o.retained == |r.value.stdout| && e.observed == e.retained == |r.value.stderr|
              && b.report.value.total == Some(|r.value.stdout| + |r.value.stderr|)
            else
              && b.report.value.total.None? && o.retained == Min(outputCap, o.observed)
              && e.retained == Min(StderrCap(outputCap, stderrCap), e.observed)
    ensures r == Err(InvalidLimit) <==> timeout <= 0.0 || outputCap <= 0 || (stderrCap.Some? && stderrCap.value <= 0)
    ensures r == Err(CommandStart) <==> LimitsValid(timeout, outputCap, stderrCap) && !starts
    ensures r.Ok? <==>
            && timeout > 0.0 && outputCap > 0 && (stderrCap.Some? ==> stderrCap.value > 0)
            && starts && exit.Some? && Drains(events) && |Sent(events, Stdout)| <= outputCap
            && (stderrCap.Some? ==> |Sent(events, Stderr)| <= stderrCap.value)
            && (stderrCap.None? ==> |Sent(events, Stderr)| <= outputCap)
    ensures r.Ok? ==> r.value == Completed(exit.value, Sent(events, Stdout), Sent(events, Stderr))
    ensures r == Err(OutputLimit(Stdout)) ==> b.report.value.stdout.limitHit && |Sent(events, Stdout)| > outputCap
    ensures r == Err(OutputLimit(Stderr)) ==>
              && b.report.value.stderr.limitHit
              && |Sent(events, Stderr)| > if stderrCap.Some? then stderrCap.value else outputCap
    ensures b.report.value.stdout.limit == outputCap
    ensures stderrCap.None? ==> b.report.value.stderr.limit == outputCap
    ensures stderrCap.Some? && stderrCap.value > 0 ==> b.report.value.stderr.limit == stderrCap.value
  {
    b := new Builder(outputCap, StderrCap(outputCap, stderrCap));
    ghost var peaks;
    r, peaks := RunBounded(events, timeout, outputCap, stderrCap, starts, exit, b);
    b.Conclude(r.Ok?);
  }
}
