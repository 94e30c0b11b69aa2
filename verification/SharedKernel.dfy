/** Many connections, one kernel behind a lock: whatever the interleaving, the kernel sees a
    single sequential run, and each connection's frames appear in it in order. */
module SharedKernel {
  import opened Common
  import opened Ipc
  import opened Framing
  import opened FramedIo
  import Kernel
  import RiskGate

  /** A handler thread between two lock acquisitions: its unread bytes, its header buffer,
      whether its stream breaks instead of ending, and whether it gave up on a reply. */
  datatype Thread = Thread(input: seq<Byte>, header: seq<Byte>, broken: bool, open: bool, unanswered: bool)

  /** What a client does to its connection. */
  datatype Stream = Stream(input: seq<Byte>, broken: bool)

  /** A thread's turn at the lock, and whether it then manages to write its reply. */
  datatype Turn = Turn(thread: nat, replied: bool)

  datatype Entry = Entry(thread: nat, frame: seq<Byte>, result: Result)

  datatype Daemon = Daemon(kernel: Kernel.Value, threads: seq<Thread>, log: seq<Entry>)

  ghost predicate HeadersOk(d: Daemon) {
    forall i :: 0 <= i < |d.threads| ==> |d.threads[i].header| == 4
  }

  function Fresh(s: Stream): Thread {
    Thread(s.input, [0, 0, 0, 0], s.broken, true, false)
  }

  function Start(streams: seq<Stream>): (d: Daemon)
    ensures |d.threads| == |streams| && HeadersOk(d)
    ensures forall i :: 0 <= i < |streams| ==> d.threads[i] == Fresh(streams[i])
  {
    Daemon(Kernel.INITIAL, seq(|streams|, i requires 0 <= i < |streams| => Fresh(streams[i])), [])
  }

  /** Thread c reads its next frame, takes the lock, has it handled and replies; or it ends. */
  function Step(d: Daemon, turn: Turn, parse: seq<Byte> -> Option<Envelope>, rp: RiskGate.RiskParameters): (n: Daemon)
    requires HeadersOk(d)
    ensures HeadersOk(n) && |n.threads| == |d.threads|
  {
    var c := turn.thread;
    if c >= |d.threads| || !d.threads[c].open then d
    else
      var t := d.threads[c];
      match NextOn(t.broken, t.input, t.header)
      case Some(Frame(body, header, rest)) =>
        var (k, r) := Answer(d.kernel, body, parse, rp);
        Daemon(k, d.threads[c := After(t, header, rest, turn.replied)], d.log + [Entry(c, body, r)])
      case _ => d.(threads := d.threads[c := t.(open := false)])
  }

  /** The thread after a frame: it reads on only if its reply was written. */
  function After(t: Thread, header: seq<Byte>, rest: seq<Byte>, replied: bool): Thread {
    Thread(rest, header, t.broken, replied, !replied)
  }

  function Run(d: Daemon, schedule: seq<Turn>, parse: seq<Byte> -> Option<Envelope>,
               rp: RiskGate.RiskParameters): (n: Daemon)
    requires HeadersOk(d)
    ensures HeadersOk(n) && |n.threads| == |d.threads|
  {
    if schedule == [] then d
    else Step(Run(d, schedule[..|schedule| - 1], parse, rp), schedule[|schedule| - 1], parse, rp)
  }

  function Frames(log: seq<Entry>): (fs: seq<seq<Byte>>)
    ensures |fs| == |log|
  {
    if log == [] then [] else Frames(log[..|log| - 1]) + [log[|log| - 1].frame]
  }

  function Results(log: seq<Entry>): (rs: seq<Result>)
    ensures |rs| == |log|
  {
    if log == [] then [] else Results(log[..|log| - 1]) + [log[|log| - 1].result]
  }

  /** The frames that thread c contributed, in log order. */
  function FramesOf(log: seq<Entry>, c: nat): seq<seq<Byte>> {
    if log == [] then []
    else FramesOf(log[..|log| - 1], c) + (if log[|log| - 1].thread == c then [log[|log| - 1].frame] else [])
  }

  /** The frames that thread c has still to contribute. */
  function Coming(t: Thread): seq<seq<Byte>>
    requires |t.header| == 4
  {
    if t.open then ServeOn(t.broken, t.input, t.header).frames else []
  }

  /** What a thread contributed and will contribute, against all the frames its stream holds. */
  ghost predicate Accounted(log: seq<Entry>, c: nat, t: Thread, all: seq<seq<Byte>>)
    requires |t.header| == 4
  {
    if t.unanswered then !t.open && FramesOf(log, c) <= all else FramesOf(log, c) + Coming(t) == all
  }

  lemma {:induction false} LogOneMore(log: seq<Entry>, e: Entry, c: nat)
    ensures Frames(log + [e]) == Frames(log) + [e.frame]
    ensures Results(log + [e]) == Results(log) + [e.result]
    ensures FramesOf(log + [e], c) == FramesOf(log, c) + (if e.thread == c then [e.frame] else [])
  {
    assert (log + [e])[..|log|] == log;
  }

  /** The log is a sequential run of the kernel. */
  ghost predicate Sequential(d: Daemon, parse: seq<Byte> -> Option<Envelope>, rp: RiskGate.RiskParameters) {
    HandleAll(Kernel.INITIAL, Frames(d.log), parse, rp) == (d.kernel, Results(d.log))
  }

  lemma {:induction false} StepSequential(d: Daemon, turn: Turn, parse: seq<Byte> -> Option<Envelope>,
                                          rp: RiskGate.RiskParameters)
    requires HeadersOk(d) && Sequential(d, parse, rp)
    ensures Sequential(Step(d, turn, parse, rp), parse, rp)
  {
    var c := turn.thread;
    if c < |d.threads| && d.threads[c].open {
      var t := d.threads[c];
      var next := NextOn(t.broken, t.input, t.header);
      if next.Some? && next.value.Frame? {
        LogOneMore(d.log, Entry(c, next.value.body, Answer(d.kernel, next.value.body, parse, rp).1), c);
        HandleOneMore(Kernel.INITIAL, Frames(d.log), next.value.body, parse, rp);
      }
    }
  }

  lemma {:induction false} ComingIsNext(t: Thread)
    requires |t.header| == 4 && t.open
    requires var r := NextOn(t.broken, t.input, t.header); r.Some? && r.value.Frame?
    ensures var f := NextOn(t.broken, t.input, t.header).value;
      Coming(t) == [f.body] + ServeOn(t.broken, f.rest, f.header).frames
  {}

  lemma {:induction false} Shift(past: seq<seq<Byte>>, f: seq<Byte>, more: seq<seq<Byte>>)
    ensures past + [f] + more == past + ([f] + more) && past + [f] <= past + ([f] + more)
  {}

  /** Logging a thread's next frame moves it from coming to logged. */
  lemma {:induction false} FrameIsAccounted(log: seq<Entry>, t: Thread, c: nat, r: Result, replied: bool, all: seq<seq<Byte>>)
    requires |t.header| == 4 && t.open && Accounted(log, c, t, all)
    requires var n := NextOn(t.broken, t.input, t.header); n.Some? && n.value.Frame?
    ensures var f := NextOn(t.broken, t.input, t.header).value;
      Accounted(log + [Entry(c, f.body, r)], c, After(t, f.header, f.rest, replied), all)
  {
    var f := NextOn(t.broken, t.input, t.header).value;
    LogOneMore(log, Entry(c, f.body, r), c);
    ComingIsNext(t);
    Shift(FramesOf(log, c), f.body, ServeOn(t.broken, f.rest, f.header).frames);
  }

  lemma {:induction false} OthersAreAccounted(log: seq<Entry>, e: Entry, i: nat, t: Thread, all: seq<seq<Byte>>)
    requires |t.header| == 4 && e.thread != i && Accounted(log, i, t, all)
    ensures Accounted(log + [e], i, t, all)
  {
    LogOneMore(log, e, i);
    assert FramesOf(log, i) + [] == FramesOf(log, i);
  }

  lemma {:induction false} EndIsAccounted(log: seq<Entry>, t: Thread, c: nat, all: seq<seq<Byte>>)
    requires |t.header| == 4 && t.open && Accounted(log, c, t, all)
    requires var n := NextOn(t.broken, t.input, t.header); !(n.Some? && n.value.Frame?)
    ensures Accounted(log, c, t.(open := false), all)
  {
    assert Coming(t) == [];
  }

  lemma {:induction false} OwnStepAccounted(d: Daemon, turn: Turn, all: seq<seq<Byte>>,
                                            parse: seq<Byte> -> Option<Envelope>, rp: RiskGate.RiskParameters)
    requires HeadersOk(d) && turn.thread < |d.threads|
    requires Accounted(d.log, turn.thread, d.threads[turn.thread], all)
    ensures var n := Step(d, turn, parse, rp); Accounted(n.log, turn.thread, n.threads[turn.thread], all)
  {
    var c, t := turn.thread, d.threads[turn.thread];
    if t.open {
      var next := NextOn(t.broken, t.input, t.header);
      if next.Some? && next.value.Frame? {
        FrameIsAccounted(d.log, t, c, Answer(d.kernel, next.value.body, parse, rp).1, turn.replied, all);
      } else {
        EndIsAccounted(d.log, t, c, all);
      }
    }
  }

  /** A turn adds at most one log entry, its own, and touches no other thread. */
  lemma {:induction false} StepIsLocal(d: Daemon, turn: Turn, i: nat,
                                       parse: seq<Byte> -> Option<Envelope>, rp: RiskGate.RiskParameters)
    requires HeadersOk(d) && i < |d.threads| && i != turn.thread
    ensures var n := Step(d, turn, parse, rp);
      && n.threads[i] == d.threads[i]
      && (n.log == d.log || exists e: Entry :: e.thread == turn.thread && n.log == d.log + [e])
  {
    var c := turn.thread;
    if c < |d.threads| && d.threads[c].open {
      var next := NextOn(d.threads[c].broken, d.threads[c].input, d.threads[c].header);
      if next.Some? && next.value.Frame? {
        var e := Entry(c, next.value.body, Answer(d.kernel, next.value.body, parse, rp).1);
        assert e.thread == turn.thread && Step(d, turn, parse, rp).log == d.log + [e];
      }
    }
  }

  lemma {:induction false} StepAccounted(d: Daemon, turn: Turn, i: nat, all: seq<seq<Byte>>,
                                         parse: seq<Byte> -> Option<Envelope>, rp: RiskGate.RiskParameters)
    requires HeadersOk(d) && i < |d.threads| && Accounted(d.log, i, d.threads[i], all)
    ensures var n := Step(d, turn, parse, rp); Accounted(n.log, i, n.threads[i], all)
  {
    if i == turn.thread {
      OwnStepAccounted(d, turn, all, parse, rp);
    } else {
      StepIsLocal(d, turn, i, parse, rp);
      var log := Step(d, turn, parse, rp).log;
      if log != d.log {
        var e: Entry :| e.thread == turn.thread && log == d.log + [e];
        OthersAreAccounted(d.log, e, i, d.threads[i], all);
      }
    }
  }

  /** For every schedule of any number of connections, whether they end or break and whichever
      replies fail: the kernel's state and all results are those of handling the logged frames
      one after the other; and what each connection contributed is a prefix of its own frames,
      with exactly the rest still to come unless a reply of its own failed. */
  lemma {:induction false} InterleavingIsSequential(streams: seq<Stream>, schedule: seq<Turn>, i: nat,
                                                    parse: seq<Byte> -> Option<Envelope>, rp: RiskGate.RiskParameters)
    requires i < |streams|
    ensures var d := Run(Start(streams), schedule, parse, rp);
      && Sequential(d, parse, rp)
      && Accounted(d.log, i, d.threads[i], ServeOn(streams[i].broken, streams[i].input, [0, 0, 0, 0]).frames)
  {
    var all := ServeOn(streams[i].broken, streams[i].input, [0, 0, 0, 0]).frames;
    if schedule == [] {
      assert [] + Coming(Fresh(streams[i])) == all;
    } else {
      var front, turn := schedule[..|schedule| - 1], schedule[|schedule| - 1];
      InterleavingIsSequential(streams, front, i, parse, rp);
      var d := Run(Start(streams), front, parse, rp);
      StepSequential(d, turn, parse, rp);
      StepAccounted(d, turn, i, all, parse, rp);
    }
  }

  // ----- every connection finishes -----

  function Turns(schedule: seq<Turn>, i: nat): nat {
    if schedule == [] then 0
    else Turns(schedule[..|schedule| - 1], i) + (if schedule[|schedule| - 1].thread == i then 1 else 0)
  }

  /** A write to connection i failed. */
  ghost predicate Failed(schedule: seq<Turn>, i: nat) {
    exists k :: 0 <= k < |schedule| && schedule[k] == Turn(i, false)
  }

  lemma {:induction false} FailedOneMore(front: seq<Turn>, turn: Turn, i: nat)
    ensures Failed(front + [turn], i) <==> Failed(front, i) || turn == Turn(i, false)
  {
    var schedule := front + [turn];
    if Failed(front, i) {
      var k :| 0 <= k < |front| && front[k] == Turn(i, false);
      assert schedule[k] == Turn(i, false);
    }
    assert schedule[|front|] == turn;
  }

  /** A turn of an open connection uses up input or ends it, and a reply that fails ends it too. */
  lemma {:induction false} TurnIsProgress(d: Daemon, turn: Turn, parse: seq<Byte> -> Option<Envelope>,
                                          rp: RiskGate.RiskParameters)
    requires HeadersOk(d) && turn.thread < |d.threads| && d.threads[turn.thread].open
    ensures var t, u := d.threads[turn.thread], Step(d, turn, parse, rp).threads[turn.thread];
      && (u.open ==> |u.input| < |t.input| && turn.replied)
      && (u.unanswered ==> t.unanswered || !turn.replied)
  {}

  lemma {:induction false} TurnsAreProgress(streams: seq<Stream>, schedule: seq<Turn>, i: nat,
                                            parse: seq<Byte> -> Option<Envelope>, rp: RiskGate.RiskParameters)
    requires i < |streams|
    ensures var t := Run(Start(streams), schedule, parse, rp).threads[i];
      && (t.open ==> Turns(schedule, i) + |t.input| <= |streams[i].input|)
      && (t.unanswered ==> Failed(schedule, i))
  {
    if schedule != [] {
      var front, turn := schedule[..|schedule| - 1], schedule[|schedule| - 1];
      TurnsAreProgress(streams, front, i, parse, rp);
      assert front + [turn] == schedule;
      FailedOneMore(front, turn, i);
      var d := Run(Start(streams), front, parse, rp);
      if i != turn.thread {
        StepIsLocal(d, turn, i, parse, rp);
      } else if d.threads[i].open {
        TurnIsProgress(d, turn, parse, rp);
      }
    }
  }

  /** Given more turns than it has input, a connection is over, however it ends and whatever the
      others do; and unless a reply to it failed, all its frames have been handled. */
  lemma {:induction false} ConnectionsFinish(streams: seq<Stream>, schedule: seq<Turn>, i: nat,
                                             parse: seq<Byte> -> Option<Envelope>, rp: RiskGate.RiskParameters)
    requires i < |streams| && Turns(schedule, i) > |streams[i].input|
    ensures var d := Run(Start(streams), schedule, parse, rp);
      && !d.threads[i].open
      && (!Failed(schedule, i) ==>
        FramesOf(d.log, i) == ServeOn(streams[i].broken, streams[i].input, [0, 0, 0, 0]).frames)
  {
    TurnsAreProgress(streams, schedule, i, parse, rp);
    InterleavingIsSequential(streams, schedule, i, parse, rp);
  }
}
