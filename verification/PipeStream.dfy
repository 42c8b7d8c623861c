/** Any number of readers and writers of one pipe.  A step is what one of them does from taking the pipe's lock to
    sleeping or returning. */
module PipeStream {
  import opened Common
  import opened Bytes
  import opened PipeRing
  import opened Runs

  /** A call in progress: pipewrite with i bytes stored, or piperead of n bytes. */
  datatype Job = Idle | Writing(addr: seq<Byte>, i: nat, asleep: bool) | Reading(n: nat, asleep: bool)

  /** What the last call returned. */
  datatype Ret = Nothing | Failed | Wrote(n: nat) | Got(bytes: seq<Byte>)

  datatype User = User(job: Job, killed: bool, ret: Ret)

  /** buf is what the ring holds; stored and delivered record all bytes ever put in and taken out. */
  datatype Sys = Sys(buf: seq<Byte>, readopen: bool, writeopen: bool, users: seq<User>,
                     stored: seq<Byte>, delivered: seq<Byte>)

  datatype Step = CallWrite(p: nat, addr: seq<Byte>) | CallRead(p: nat, n: nat)
    | Turn(p: nat) | CloseRead | CloseWrite | Kill(p: nat)

  // ---------------------------------------------------------------- steps

  function WakeReader(u: User): User { if u.job.Reading? then u.(job := Reading(u.job.n, false)) else u }
  function WakeWriter(u: User): User { if u.job.Writing? then u.(job := Writing(u.job.addr, u.job.i, false)) else u }

  /** wakeup(&p->nread) */
  function WakeReaders(users: seq<User>): (r: seq<User>)
    ensures |r| == |users|
  {
    seq(|users|, i requires 0 <= i < |users| => WakeReader(users[i]))
  }

  /** wakeup(&p->nwrite) */
  function WakeWriters(users: seq<User>): (r: seq<User>)
    ensures |r| == |users|
  {
    seq(|users|, i requires 0 <= i < |users| => WakeWriter(users[i]))
  }

  function Return(users: seq<User>, p: nat, ret: Ret): (r: seq<User>)
    requires p < |users|
    ensures |r| == |users|
  {
    users[p := users[p].(job := Idle, ret := ret)]
  }

  predicate Awake(job: Job) { (job.Writing? && !job.asleep && job.i <= |job.addr|) || (job.Reading? && !job.asleep) }

  predicate Enabled(s: Sys, t: Step) {
    match t
    case CallWrite(p, addr) => p < |s.users| && s.users[p].job.Idle?
    case CallRead(p, n) => p < |s.users| && s.users[p].job.Idle?
    case Turn(p) => p < |s.users| && Awake(s.users[p].job) && |s.buf| <= PIPESIZE
    case CloseRead => s.readopen
    case CloseWrite => s.writeopen
    case Kill(p) => p < |s.users|
  }

  /** Where a writer's turn gets to. */
  function Reach(s: Sys, p: nat): (j: nat)
    requires Enabled(s, Turn(p)) && s.users[p].job.Writing?
    ensures s.users[p].job.i <= j <= |s.users[p].job.addr|
    ensures j < |s.users[p].job.addr| ==> |s.buf| + (j - s.users[p].job.i) == PIPESIZE
  {
    s.users[p].job.i + Room(s.buf, |s.users[p].job.addr| - s.users[p].job.i)
  }

  function WriteTurn(s: Sys, p: nat): Sys
    requires Enabled(s, Turn(p)) && s.users[p].job.Writing?
  {
    var u := s.users[p];
    var j := Reach(s, p);
    var r := s.(buf := s.buf + u.job.addr[u.job.i..j], stored := s.stored + u.job.addr[u.job.i..j]);
    if j == |u.job.addr| then r.(users := Return(WakeReaders(s.users), p, Wrote(|u.job.addr|)))
    else if !s.readopen || u.killed then r.(users := Return(s.users, p, Failed))
    else r.(users := WakeReaders(s.users)[p := u.(job := Writing(u.job.addr, j, true))])
  }

  function ReadTurn(s: Sys, p: nat): Sys
    requires Enabled(s, Turn(p)) && s.users[p].job.Reading?
  {
    var u := s.users[p];
    if s.buf == [] && s.writeopen then
      if u.killed then s.(users := Return(s.users, p, Failed))
      else s.(users := s.users[p := u.(job := Reading(u.job.n, true))])
    else
      var k := Min(u.job.n, |s.buf|);
      s.(buf := s.buf[k..], delivered := s.delivered + s.buf[..k],
          users := Return(WakeWriters(s.users), p, Got(s.buf[..k])))
  }

  function Roused(u: User): User { WakeReader(WakeWriter(u)).(killed := true) }

  function Do(s: Sys, t: Step): Sys
    requires Enabled(s, t)
  {
    match t
    case CallWrite(p, addr) => s.(users := s.users[p := s.users[p].(job := Writing(addr, 0, false))])
    case CallRead(p, n) => s.(users := s.users[p := s.users[p].(job := Reading(n, false))])
    case Turn(p) => if s.users[p].job.Writing? then WriteTurn(s, p) else ReadTurn(s, p)
    case CloseRead => s.(readopen := false, users := WakeWriters(s.users))
    case CloseWrite => s.(writeopen := false, users := WakeReaders(s.users))
    case Kill(p) => s.(users := s.users[p := Roused(s.users[p])])
  }

  function Next(s: Sys, t: Step): Option<Sys> { if Enabled(s, t) then Some(Do(s, t)) else None }

  function Start(n: nat): Sys { Sys([], true, true, seq(n, _ => User(Idle, false, Nothing)), [], []) }

  // ---------------------------------------------------------------- invariants

  /** Bytes come out as they went in, and none is lost. */
  predicate Streams(s: Sys) { s.stored == s.delivered + s.buf && |s.buf| <= PIPESIZE }

  /** A writer sleeps only in front of a full pipe that can still be read. */
  predicate WritersQuiet(s: Sys) {
    forall p | 0 <= p < |s.users| && s.users[p].job.Writing? && s.users[p].job.asleep ::
      |s.buf| == PIPESIZE && s.readopen && !s.users[p].killed
  }

  /** A reader sleeps only in front of an empty pipe that can still be written. */
  predicate ReadersQuiet(s: Sys) {
    forall p | 0 <= p < |s.users| && s.users[p].job.Reading? && s.users[p].job.asleep ::
      s.buf == [] && s.writeopen && !s.users[p].killed
  }

  lemma StepStreams(s: Sys, t: Step)
    requires Streams(s) && Enabled(s, t)
    ensures Streams(Do(s, t))
  {
    if t.Turn? {
      var u := s.users[t.p];
      if u.job.Writing? {
        var piece := u.job.addr[u.job.i..Reach(s, t.p)];
        assert s.delivered + (s.buf + piece) == s.delivered + s.buf + piece;
      } else {
        var k := Min(u.job.n, |s.buf|);
        assert s.buf == s.buf[..k] + s.buf[k..];
        assert s.delivered + s.buf[..k] + s.buf[k..] == s.delivered + s.buf;
      }
    }
  }

  lemma StepWriters(s: Sys, t: Step)
    requires Streams(s) && WritersQuiet(s) && Enabled(s, t)
    ensures WritersQuiet(Do(s, t))
  {}

  // ---------------------------------------------------------------- readers

  predicate ReaderAsleep(s: Sys) { exists p | 0 <= p < |s.users| :: s.users[p].job.Reading? && s.users[p].job.asleep }

  /** A writer that may not wait any more has stored bytes in this turn, finds the pipe full and returns without a
      wakeup
      while some reader sleeps. */
  predicate LosesWakeup(s: Sys, t: Step)
    requires Enabled(s, t)
  {
    && t.Turn? && s.users[t.p].job.Writing? && (!s.readopen || s.users[t.p].killed)
    && s.users[t.p].job.i < Reach(s, t.p) < |s.users[t.p].job.addr| && ReaderAsleep(s)
  }

  /** Those turns are the only steps that leave a reader asleep in front of bytes. */
  lemma StepReaders(s: Sys, t: Step)
    requires Streams(s) && ReadersQuiet(s) && Enabled(s, t)
    ensures ReadersQuiet(Do(s, t)) <==> !LosesWakeup(s, t)
  {
    if LosesWakeup(s, t) {
      var p :| 0 <= p < |s.users| && s.users[p].job.Reading? && s.users[p].job.asleep;
      assert Do(s, t).users[p] == s.users[p];
    }
  }

  /** The run takes no such turn. */
  function QuietNext(s: Sys, t: Step): Option<Sys> {
    if Enabled(s, t) && !LosesWakeup(s, t) then Some(Do(s, t)) else None
  }

  // ---------------------------------------------------------------- every run

  /** In every run the bytes stored are the bytes delivered followed by the bytes buffered, at most PIPESIZE of them,
      and no writer sleeps while there is room or nobody to read. */
  lemma PipeIsStream(n: nat, steps: seq<Step>, s: Sys)
    requires After(Next, Start(n), steps) == Some(s)
    ensures Streams(s) && WritersQuiet(s)
  {
    forall r, t | Streams(r) && WritersQuiet(r) && Next(r, t).Some?
      ensures Streams(Next(r, t).value) && WritersQuiet(Next(r, t).value)
    {
      StepStreams(r, t);
      StepWriters(r, t);
    }
    RunKeeps(Next, s => Streams(s) && WritersQuiet(s), Start(n), steps);
  }

  lemma NoReaderLeft(n: nat, steps: seq<Step>, s: Sys)
    requires After(QuietNext, Start(n), steps) == Some(s)
    ensures Streams(s) && ReadersQuiet(s)
  {
    forall r, t | Streams(r) && ReadersQuiet(r) && QuietNext(r, t).Some?
      ensures Streams(QuietNext(r, t).value) && ReadersQuiet(QuietNext(r, t).value)
    {
      StepStreams(r, t);
      StepReaders(r, t);
    }
    RunKeeps(QuietNext, s => Streams(s) && ReadersQuiet(s), Start(n), steps);
  }

  /** A read returns no bytes exactly when it asked for none, or the pipe is empty and its write end closed. */
  lemma EndOfFile(s: Sys, p: nat)
    requires Enabled(s, Turn(p)) && s.users[p].job.Reading? && Do(s, Turn(p)).users[p].job.Idle?
    requires Do(s, Turn(p)).users[p].ret.Got?
    ensures Do(s, Turn(p)).users[p].ret.bytes == [] <==> s.users[p].job.n == 0 || (s.buf == [] && !s.writeopen)
  {}

  /** A killed writer of more than PIPESIZE bytes fills the pipe and leaves the sleeping reader asleep. */
  lemma LostWakeup(big: seq<Byte>)
    requires |big| > PIPESIZE
    ensures exists s :: Reaches(Next, Start(2), s) && !ReadersQuiet(s)
  {
    var idle := User(Idle, false, Nothing);
    var start := Start(2);
    assert start == Sys([], true, true, [idle, idle], [], []);
    var waits := User(Reading(1, true), false, Nothing);
    var s1 := Sys([], true, true, [idle.(job := Reading(1, false)), idle], [], []);
    var s2 := Sys([], true, true, [waits, idle], [], []);
    var s3 := Sys([], true, true, [waits, idle.(job := Writing(big, 0, false))], [], []);
    var s4 := Sys([], true, true, [waits, User(Writing(big, 0, false), true, Nothing)], [], []);
    assert Do(start, CallRead(0, 1)).users == s1.users && Do(s1, Turn(0)).users == s2.users;
    assert Do(s2, CallWrite(1, big)).users == s3.users && Do(s3, Kill(1)).users == s4.users;
    ReachesItself<Sys, Step>(Next, start);
    ReachesNext(Next, start, start, CallRead(0, 1));
    ReachesNext(Next, start, s1, Turn(0));
    ReachesNext(Next, start, s2, CallWrite(1, big));
    ReachesNext(Next, start, s3, Kill(1));
    ReachesNext(Next, start, s4, Turn(1));
    var s5 := Do(s4, Turn(1));
    assert s5.users[0] == waits && |s5.buf| == PIPESIZE;
  }
}
