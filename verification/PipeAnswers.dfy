/** What pipewrite and piperead tell their callers: the bytes read, piece by piece, are the bytes written, call by
    call. */
module PipeAnswers {
  import opened Common
  import opened Bytes
  import opened PipeRing
  import opened PipeStream
  import opened Runs

  // ---------------------------------------------------------------- one turn

  /** A reader is given the oldest bytes, as many as it asked for or as there are; what is left stays in the pipe. */
  lemma ReadAnswer(s: Sys, p: nat)
    requires Enabled(s, Turn(p)) && s.users[p].job.Reading?
    ensures var u, s' := s.users[p], Do(s, Turn(p)); var v := s'.users[p];
      && s'.stored == s.stored
      && (v.job.Idle? && v.ret.Got? <==> s.buf != [] || !s.writeopen)
      && (v.job.Idle? && v.ret.Got? ==>
            s.buf == v.ret.bytes + s'.buf && |v.ret.bytes| == Min(u.job.n, |s.buf|)
            && s'.delivered == s.delivered + v.ret.bytes)
      && (!(v.job.Idle? && v.ret.Got?) ==> s'.buf == s.buf && s'.delivered == s.delivered)
      && (v.job.Idle? <==> s.buf != [] || !s.writeopen || u.killed)
      && (v.job.Idle? && !v.ret.Got? ==> v.ret == Failed)
  {
    var k := Min(s.users[p].job.n, |s.buf|);
    assert s.buf == s.buf[..k] + s.buf[k..];
  }

  /** A writer puts in its next bytes until the pipe is full.  It returns their number exactly when all are in, fails
      exactly when some are left and it may not wait, and sleeps otherwise. */
  lemma WriteAnswer(s: Sys, p: nat)
    requires Enabled(s, Turn(p)) && s.users[p].job.Writing?
    ensures var u, s' := s.users[p], Do(s, Turn(p)); var v := s'.users[p]; var left := u.job.addr[u.job.i..];
      && s'.delivered == s.delivered && |s.buf| <= |s'.buf|
      && s'.buf[..|s.buf|] == s.buf && s'.buf[|s.buf|..] <= left && s'.stored == s.stored + s'.buf[|s.buf|..]
      && (|s'.buf| == PIPESIZE || s'.buf == s.buf + left)
      && (v.job.Idle? && v.ret.Wrote? <==> s'.buf == s.buf + left)
      && (v.job.Idle? && v.ret.Wrote? ==> v.ret.n == |u.job.addr|)
      && (v.job.Idle? && v.ret == Failed <==> s'.buf != s.buf + left && (!s.readopen || u.killed))
      && (!v.job.Idle? ==> v.job == Writing(u.job.addr, u.job.i + |s'.buf| - |s.buf|, true))
  {
    var u := s.users[p];
    var j := Reach(s, p);
    var left := u.job.addr[u.job.i..];
    var piece := u.job.addr[u.job.i..j];
    assert piece == left[..j - u.job.i];
    assert (s.buf + piece)[|s.buf|..] == piece;
    if j < |u.job.addr| { assert |s.buf + piece| < |s.buf + left|; } else { assert piece == left; }
  }

  // ---------------------------------------------------------------- whole runs

  /** The bytes this step hands to a reader. */
  function Handed(s: Sys, t: Step): seq<Byte>
    requires Enabled(s, t)
  {
    if t.Turn? && s.users[t.p].job.Reading? && t.p < |Do(s, t).users|
       && Do(s, t).users[t.p].job.Idle? && Do(s, t).users[t.p].ret.Got? then Do(s, t).users[t.p].ret.bytes
    else []
  }

  /** All bytes handed to readers, one return of piperead after the other. */
  function Received(start: Sys, steps: seq<Step>): seq<Byte>
    requires After(Next, start, steps).Some?
  {
    if steps == [] then []
    else
      var before := steps[..|steps| - 1];
      Received(start, before) + Handed(After(Next, start, before).value, steps[|steps| - 1])
  }

  lemma {:induction false} ReceivedIsDelivered(start: Sys, steps: seq<Step>)
    requires After(Next, start, steps).Some? && start.delivered == []
    ensures Received(start, steps) == After(Next, start, steps).value.delivered
  {
    if steps != [] {
      var before, t := steps[..|steps| - 1], steps[|steps| - 1];
      ReceivedIsDelivered(start, before);
      var s := After(Next, start, before).value;
      if t.Turn? && s.users[t.p].job.Reading? { ReadAnswer(s, t.p); }
    }
  }

  /** The bytes this step puts into the pipe. */
  function Put(s: Sys, t: Step): seq<Byte>
    requires Enabled(s, t)
  {
    if |s.stored| <= |Do(s, t).stored| then Do(s, t).stored[|s.stored|..] else []
  }

  datatype Call = Call(arg: seq<Byte>, put: seq<Byte>)

  /** User p's last call, if it is pipewrite: its argument, and the bytes its turns have put in so far. */
  function LastWrite(start: Sys, steps: seq<Step>, p: nat): Option<Call>
    requires After(Next, start, steps).Some?
  {
    if steps == [] then None
    else
      var before, t := steps[..|steps| - 1], steps[|steps| - 1];
      var call := LastWrite(start, before, p);
      match t
      case CallWrite(q, addr) => if q == p then Some(Call(addr, [])) else call
      case CallRead(q, n) => if q == p then None else call
      case Turn(q) =>
        if q == p && call.Some? then Some(call.value.(put := call.value.put + Put(After(Next, start, before).value, t)))
        else call
      case _ => call
  }

  /** User u, whose last call was a pipewrite: it goes on behind what it has put in, or has returned. */
  predicate CallOk(u: User, call: Call) {
    match u.job
    case Writing(addr, i, asleep) => addr == call.arg && i <= |addr| && call.put == addr[..i]
    case Reading(n, asleep) => false
    case Idle =>
      match u.ret
      case Wrote(n) => n == |call.arg| && call.put == call.arg
      case Failed => call.put < call.arg
      case _ => false
  }

  lemma TurnCallOk(s: Sys, p: nat, call: Call)
    requires Enabled(s, Turn(p)) && s.users[p].job.Writing? && CallOk(s.users[p], call)
    ensures CallOk(Do(s, Turn(p)).users[p], call.(put := call.put + Put(s, Turn(p))))
  {
    WriteAnswer(s, p);
    var u, s' := s.users[p], Do(s, Turn(p));
    var left, piece := u.job.addr[u.job.i..], s'.buf[|s.buf|..];
    assert Put(s, Turn(p)) == piece == left[..|piece|];
    assert call.arg[..u.job.i] + left == call.arg;
    assert call.put + piece == call.arg[..u.job.i + |piece|];
    if s'.buf != s.buf + left { assert s.buf + piece == s'.buf; assert |piece| < |left|; }
    else { assert piece == left; }
  }

  /** What the last call of user p, and nothing else, has put in agrees with where p stands. */
  predicate UserOk(s: Sys, p: nat, call: Option<Call>) {
    match call
    case Some(c) => p < |s.users| && CallOk(s.users[p], c)
    case None => p < |s.users| ==> !s.users[p].job.Writing?
  }

  /** Another user's step, a kill or a close: p's bytes and answer stay. */
  lemma OthersKeep(s: Sys, t: Step, p: nat, call: Option<Call>)
    requires Enabled(s, t) && UserOk(s, p, call)
    requires !(t.CallWrite? && t.p == p) && !(t.CallRead? && t.p == p) && !(t.Turn? && t.p == p)
    ensures UserOk(Do(s, t), p, call)
  {
    if p < |s.users| { assert Do(s, t).users[p].ret == s.users[p].ret; }
  }

  lemma OwnKeep(s: Sys, t: Step, p: nat, call: Option<Call>)
    requires Enabled(s, t) && UserOk(s, p, call)
    requires (t.CallWrite? && t.p == p) || (t.CallRead? && t.p == p) || t == Turn(p)
    ensures UserOk(Do(s, t), p,
      if t.CallWrite? then Some(Call(t.addr, [])) else if t.CallRead? || call.None? then None
      else Some(call.value.(put := call.value.put + Put(s, t))))
  {
    if t == Turn(p) && call.Some? { TurnCallOk(s, p, call.value); }
  }

  /** At every moment of every run a pipewrite has put in a prefix of its bytes: all of them exactly when it has
      returned their number, not all when it has failed. */
  lemma {:induction false} WritersKeepTheirWord(n: nat, steps: seq<Step>, p: nat)
    requires After(Next, Start(n), steps).Some?
    ensures UserOk(After(Next, Start(n), steps).value, p, LastWrite(Start(n), steps, p))
  {
    if steps != [] {
      var before, t := steps[..|steps| - 1], steps[|steps| - 1];
      WritersKeepTheirWord(n, before, p);
      var s, call := After(Next, Start(n), before).value, LastWrite(Start(n), before, p);
      if (t.CallWrite? && t.p == p) || (t.CallRead? && t.p == p) || t == Turn(p) { OwnKeep(s, t, p, call); }
      else { OthersKeep(s, t, p, call); }
    }
  }

  /** All bytes put in, one turn of a writer after the other. */
  function Sent(start: Sys, steps: seq<Step>): seq<Byte>
    requires After(Next, start, steps).Some?
  {
    if steps == [] then []
    else
      var before := steps[..|steps| - 1];
      Sent(start, before) + Put(After(Next, start, before).value, steps[|steps| - 1])
  }

  lemma {:induction false} SentIsStored(start: Sys, steps: seq<Step>)
    requires After(Next, start, steps).Some? && start.stored == []
    ensures Sent(start, steps) == After(Next, start, steps).value.stored
  {
    if steps != [] {
      var before, t := steps[..|steps| - 1], steps[|steps| - 1];
      SentIsStored(start, before);
      var s := After(Next, start, before).value;
      if t.Turn? && s.users[t.p].job.Writing? { WriteAnswer(s, t.p); }
    }
  }

  /** What the readers were given, return after return, and then the pipe's contents, is what the writers put in. */
  lemma ReadersGetWhatWasWritten(n: nat, steps: seq<Step>, s: Sys)
    requires After(Next, Start(n), steps) == Some(s)
    ensures Received(Start(n), steps) + s.buf == Sent(Start(n), steps)
  {
    ReceivedIsDelivered(Start(n), steps);
    SentIsStored(Start(n), steps);
    PipeIsStream(n, steps, s);
  }
}
