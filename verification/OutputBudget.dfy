/** Two readers, of a child's stdout and stderr, on one shared byte budget
    (services/worker/src/study_worker/sandbox.py).  A reader is interrupted only while it waits
    for a block, so receiving a block and accounting for it is one atomic step; a run is any
    interleaving of such steps, with blocks of any size the stream may yield. */
module OutputBudget {

  import opened Wrappers

  const BLOCK_BYTES: nat := 64 * 1024

  type Bytes = seq<bv8>

  datatype Status = Reading | Finished | Overflowed | Cancelled

  /** `dropped` is the block that was received but not buffered because it broke the budget. */
  datatype Reader = Reader(unread: Bytes, output: Bytes, dropped: Bytes, status: Status)

  datatype Pipe = Stdout | Stderr

  datatype State = State(total: nat, out: Reader, err: Reader) {
    function Get(p: Pipe): Reader {
      if p == Stdout then out else err
    }

    function Put(p: Pipe, r: Reader): State {
      if p == Stdout then this.(out := r) else this.(err := r)
    }

    predicate Overflow() {
      out.status == Overflowed || err.status == Overflowed
    }

    predicate Complete() {
      out.status != Reading && err.status != Reading
    }

    function Buffered(): nat {
      |out.output| + |err.output|
    }
  }

  datatype Action =
    | Receive(pipe: Pipe, size: nat)
    | Cancel(pipe: Pipe)

  datatype OutputError = LimitExceeded

  /** A stream yields a non-empty block while it has bytes and an empty one at its end. */
  predicate CanYield(unread: Bytes, size: nat) {
    if unread == [] then size == 0 else 1 <= size <= BLOCK_BYTES && size <= |unread|
  }

  /** A reader is cancelled after another one failed, or from outside if `external` (timeout,
      shutdown). */
  predicate Enabled(s: State, a: Action, external: bool) {
    && s.Get(a.pipe).status == Reading
    && match a
       case Receive(p, size) => CanYield(s.Get(p).unread, size)
       case Cancel(_) => external || s.Overflow()
  }

  /** The reader after a block of `size` bytes; `fits` says whether the new total is within the limit. */
  function Received(r: Reader, size: nat, fits: bool): Reader
    requires CanYield(r.unread, size)
  {
    if size == 0 then r.(status := Finished)
    else if fits then r.(unread := r.unread[size..], output := r.output + r.unread[..size])
    else r.(unread := r.unread[size..], dropped := r.unread[..size], status := Overflowed)
  }

  function Step(s: State, a: Action, limit: nat): State
    requires Enabled(s, a, true)
  {
    match a
    case Cancel(p) => s.Put(p, s.Get(p).(status := Cancelled))
    case Receive(p, size) =>
      s.(total := s.total + size).Put(p, Received(s.Get(p), size, s.total + size <= limit))
  }

  function Start(stdout: Bytes, stderr: Bytes): State {
    State(0, Reader(stdout, [], [], Reading), Reader(stderr, [], [], Reading))
  }

  ghost predicate IsRun(s: State, run: seq<Action>, limit: nat, external: bool)
    decreases |run|
  {
    run != [] ==> Enabled(s, run[0], external) && IsRun(Step(s, run[0], limit), run[1..], limit, external)
  }

  ghost function After(s: State, run: seq<Action>, limit: nat, external: bool): State
    requires IsRun(s, run, limit, external)
    decreases |run|
  {
    if run == [] then s else After(Step(s, run[0], limit), run[1..], limit, external)
  }

  // ---------- What every step keeps ----------

  ghost predicate ReaderInv(r: Reader, stream: Bytes) {
    && stream == r.output + r.dropped + r.unread
    && (r.status != Overflowed ==> r.dropped == [])
    && (r.status == Finished ==> r.unread == [])
  }

  ghost predicate Inv(s: State, stdout: Bytes, stderr: Bytes, limit: nat, external: bool) {
    && ReaderInv(s.out, stdout) && ReaderInv(s.err, stderr)
    && s.total == s.Buffered() + |s.out.dropped| + |s.err.dropped|
    && s.Buffered() <= limit
    && (s.total > limit <==> s.Overflow())
    && (s.out.status == Cancelled || s.err.status == Cancelled ==> external || s.Overflow())
  }

  lemma ReceivedInv(r: Reader, size: nat, fits: bool, stream: Bytes)
    requires ReaderInv(r, stream) && r.status == Reading && CanYield(r.unread, size)
    ensures var r' := Received(r, size, fits);
      && ReaderInv(r', stream)
      && |r'.output| == |r.output| + (if fits then size else 0)
      && |r'.dropped| == if fits then 0 else size
  {
    assert r.unread == r.unread[..size] + r.unread[size..];
  }

  lemma StepKeepsInv(s: State, a: Action, stdout: Bytes, stderr: Bytes, limit: nat, external: bool)
    requires Inv(s, stdout, stderr, limit, external) && Enabled(s, a, external)
    ensures Inv(Step(s, a, limit), stdout, stderr, limit, external)
  {
    if a.Receive? {
      ReceivedInv(s.Get(a.pipe), a.size, s.total + a.size <= limit, if a.pipe == Stdout then stdout else stderr);
    }
  }

  /** Once a reader has overflowed, no step appends to either buffer, and the overflow stays. */
  lemma NothingAfterOverflow(s: State, a: Action, stdout: Bytes, stderr: Bytes, limit: nat, external: bool)
    requires Inv(s, stdout, stderr, limit, external) && Enabled(s, a, external) && s.Overflow()
    ensures var next := Step(s, a, limit);
      next.Overflow() && next.out.output == s.out.output && next.err.output == s.err.output
  {
  }

  /** In every state of every interleaving the buffers hold at most `limit` bytes and are
      prefixes of the streams; after an overflow they never change again. */
  lemma {:induction false} RunKeepsBudget(s: State, run: seq<Action>, stdout: Bytes, stderr: Bytes, limit: nat,
                                          external: bool)
    requires Inv(s, stdout, stderr, limit, external) && IsRun(s, run, limit, external)
    ensures var end := After(s, run, limit, external);
      && Inv(end, stdout, stderr, limit, external)
      && end.Buffered() <= limit
      && end.out.output <= stdout && end.err.output <= stderr
      && (s.Overflow() ==> end.Overflow() && end.out.output == s.out.output && end.err.output == s.err.output)
    decreases |run|
  {
    if run == [] {
    } else {
      StepKeepsInv(s, run[0], stdout, stderr, limit, external);
      if s.Overflow() {
        NothingAfterOverflow(s, run[0], stdout, stderr, limit, external);
      }
      RunKeepsBudget(Step(s, run[0], limit), run[1..], stdout, stderr, limit, external);
    }
  }

  lemma StartInv(stdout: Bytes, stderr: Bytes, limit: nat, external: bool)
    ensures Inv(Start(stdout, stderr), stdout, stderr, limit, external)
  {
  }

  // ---------- What complete runs return ----------

  lemma Outcome(s: State, stdout: Bytes, stderr: Bytes, limit: nat)
    requires Inv(s, stdout, stderr, limit, false) && s.Complete()
    ensures s.Overflow() <==> |stdout| + |stderr| > limit
    ensures !s.Overflow() ==> s.out.output == stdout && s.err.output == stderr
  {
    assert |stdout| + |stderr| >= s.total;
  }

  /** Without timeout or cancellation from outside, every complete interleaving ends the same
      way: the limit error exactly when the streams together exceed the limit, otherwise both
      streams in full. */
  lemma {:induction false} CompleteRun(stdout: Bytes, stderr: Bytes, run: seq<Action>, limit: nat)
    requires IsRun(Start(stdout, stderr), run, limit, false)
    requires After(Start(stdout, stderr), run, limit, false).Complete()
    ensures var end := After(Start(stdout, stderr), run, limit, false);
      && (end.Overflow() <==> |stdout| + |stderr| > limit)
      && (!end.Overflow() ==> end.out.output == stdout && end.err.output == stderr)
  {
    RunKeepsBudget(Start(stdout, stderr), run, stdout, stderr, limit, false);
    Outcome(After(Start(stdout, stderr), run, limit, false), stdout, stderr, limit);
  }

  /** Whatever happens outside, two finished readers hold both streams in full. */
  lemma {:induction false} FinishedMeansWhole(stdout: Bytes, stderr: Bytes, run: seq<Action>, limit: nat,
                                              external: bool)
    requires IsRun(Start(stdout, stderr), run, limit, external)
    requires var end := After(Start(stdout, stderr), run, limit, external);
      end.out.status == Finished && end.err.status == Finished
    ensures var end := After(Start(stdout, stderr), run, limit, external);
      end.out.output == stdout && end.err.output == stderr && |stdout| + |stderr| <= limit
  {
    RunKeepsBudget(Start(stdout, stderr), run, stdout, stderr, limit, external);
  }

  /** What is left to do; every step makes it smaller, so no run goes on for ever. */
  function Work(r: Reader): nat {
    |r.unread| + if r.status == Reading then 1 else 0
  }

  lemma StepShrinks(s: State, a: Action, limit: nat)
    requires Enabled(s, a, true)
    ensures var next := Step(s, a, limit); Work(next.out) + Work(next.err) < Work(s.out) + Work(s.err)
  {
  }

  lemma {:induction false} RunsAreBounded(s: State, run: seq<Action>, limit: nat, external: bool)
    requires IsRun(s, run, limit, external)
    ensures |run| <= Work(s.out) + Work(s.err)
    decreases |run|
  {
    if run == [] {
    } else {
      StepShrinks(s, run[0], limit);
      RunsAreBounded(Step(s, run[0], limit), run[1..], limit, external);
    }
  }

  /** A state with a reader still reading always has a next step, so every run can be completed. */
  lemma SomeStepEnabled(s: State) returns (a: Action)
    requires !s.Complete()
    ensures Enabled(s, a, false)
  {
    var p := if s.out.status == Reading then Stdout else Stderr;
    a := Receive(p, if s.Get(p).unread == [] then 0 else 1);
  }

  // ---------- The shared counter ----------

  class OutputCollector {
    const maxOutputBytes: nat
    var total: nat
    var out: Reader
    var err: Reader

    ghost function View(): State
      reads this
    {
      State(total, out, err)
    }

    constructor (maxOutputBytes: nat, stdout: Bytes, stderr: Bytes)
      ensures this.maxOutputBytes == maxOutputBytes && View() == Start(stdout, stderr)
    {
      this.maxOutputBytes := maxOutputBytes;
      total := 0;
      out, err := Reader(stdout, [], [], Reading), Reader(stderr, [], [], Reading);
    }

    method Update(p: Pipe, r: Reader)
      modifies this`out, this`err
      ensures View() == old(View()).Put(p, r)
    {
      if p == Stdout {
        out := r;
      } else {
        err := r;
      }
    }

    /** One turn of the loop in `_read_limited`: a block arrives, is counted, and is buffered or
        refused. */
    method ReadBlock(p: Pipe, size: nat)
      requires Enabled(View(), Receive(p, size), false)
      modifies this
      ensures View() == Step(old(View()), Receive(p, size), maxOutputBytes)
    {
      var reader := if p == Stdout then out else err;
      var block, rest := reader.unread[..size], reader.unread[size..];
      if block == [] {
        Update(p, reader.(status := Finished));
        return;
      }
      total := total + |block|;
      if total > maxOutputBytes {
        Update(p, reader.(unread := rest, dropped := block, status := Overflowed));
      } else {
        Update(p, reader.(unread := rest, output := reader.output + block));
      }
    }

    /** The scheduler's arbitrary choice: a reader that still reads, and a block its stream may
        yield or, once one has failed, its cancellation. */
    method Schedule() returns (a: Action)
      requires !View().Complete()
      ensures Enabled(View(), a, false)
    {
      assert State(total, out, err).Get(Stdout) == out && State(total, out, err).Get(Stderr) == err;
      var p: Pipe :| State(total, out, err).Get(p).status == Reading;
      var unread := (if p == Stdout then out else err).unread;
      assert CanYield(unread, if unread == [] then 0 else 1);
      var size: nat :| CanYield(unread, size);
      var cancel: bool :| cancel ==> out.status == Overflowed || err.status == Overflowed;
      a := if cancel then Cancel(p) else Receive(p, size);
    }

    method Perform(a: Action)
      requires Enabled(View(), a, false)
      modifies this
      ensures View() == Step(old(View()), a, maxOutputBytes)
    {
      match a {
        case Receive(p, size) => ReadBlock(p, size);
        case Cancel(p) => Update(p, (if p == Stdout then out else err).(status := Cancelled));
      }
    }

    /** `_collect_output` under an arbitrary scheduler. */
    method Collect(ghost stdout: Bytes, ghost stderr: Bytes) returns (r: Result<(Bytes, Bytes), OutputError>)
      requires View() == Start(stdout, stderr)
      modifies this
      ensures r.Failure? <==> |stdout| + |stderr| > maxOutputBytes
      ensures r.Success? ==> r.value == (stdout, stderr)
    {
      hide CanYield, Received, Step, Work, Enabled, ReaderInv;
      StartInv(stdout, stderr, maxOutputBytes, false);
      while out.status == Reading || err.status == Reading
        invariant Inv(View(), stdout, stderr, maxOutputBytes, false)
        decreases Work(out) + Work(err)
      {
        var a := Schedule();
        StepKeepsInv(View(), a, stdout, stderr, maxOutputBytes, false);
        StepShrinks(View(), a, maxOutputBytes);
        Perform(a);
      }
      Outcome(View(), stdout, stderr, maxOutputBytes);
      if out.status == Overflowed || err.status == Overflowed {
        return Failure(LimitExceeded);
      }
      r := Success((out.output, err.output));
    }
  }
}
