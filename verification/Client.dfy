/**
 The upstream client: connect, pace, attempt, retry, disconnect, and the health counters.  The
 methods below run while the caller owns the client (see OwnerToken), so they are sequential.
 What a call does is described in Calls; here it is proved of the code.
 */
module UpstreamClient {
  import opened Wrappers
  import opened Bytes
  import opened Errors
  import opened Upstream
  import opened Calls
  import F = Frames

  /** The traffic so far obeys the rules, and no request may go out before `next` (if requests are
      spaced at all) or before now. */
  ghost predicate Sound(log: seq<Event>, dials: nat, clock: int, delay: int, next: int) {
    && dials == Dials(log)
    && Rested(log, 0, clock)
    && Disciplined(log)
    && Paced(log, delay)
    && Rested(log, delay, if delay > 0 then next else clock)
  }

  lemma {:induction false} SoundAfterSend(log: seq<Event>, dials: nat, clock: int, delay: int, next: int, e: Event, clock': int, next': int)
    requires Sound(log, dials, clock, delay, next) && e.Sent? && Live(log) == Some(e.sid)
    requires Rested(log, delay, clock) && e.at == clock <= e.done <= clock'
    requires if e.raw.None? && delay > 0 then e.done + delay <= next' else next' == next
    ensures Sound(log + [e], dials, clock', delay, next')
    ensures Live(log + [e]) == if Harmless(e) then Live(log) else None
  {
    Extend(log, e);
  }

  /** Where a call began: the log and the verdicts up to then. */
  datatype Mark = Mark(log: seq<Event>, verdicts: seq<Verdict>)

  class Client {
    const wire: Wire
    const requestDelay: int
    var session: Option<nat>
    var nextRequestAt: int
    var connected: bool
    var firstFailureAt: Option<int>
    var firstFailures: nat
    var finalFailures: nat
    var totalRetries: nat
    var recoveredRetries: nat
    ghost var verdicts: seq<Verdict>

    // what the call in progress has done so far
    ghost var moved: seq<Event>
    ghost var tried: seq<Event>
    ghost var said: seq<Verdict>

    constructor (wire: Wire, requestDelay: int)
      requires wire.Valid() && wire.log == []
      ensures Valid() && this.wire == wire && this.requestDelay == requestDelay && verdicts == []
    {
      this.wire, this.requestDelay := wire, requestDelay;
      session, nextRequestAt, connected, firstFailureAt := None, 0, false, None;
      firstFailures, finalFailures, totalRetries, recoveredRetries := 0, 0, 0, 0;
      verdicts, moved, tried, said := [], [], [], [];
    }

    ghost predicate TrafficOk()
      reads this, wire
    {
      Sound(wire.log, wire.dials, wire.clock, requestDelay, nextRequestAt)
    }

    ghost predicate CountersOk()
      reads this
    {
      CountersOf(verdicts) == Counters(firstFailures, finalFailures, totalRetries, recoveredRetries, firstFailureAt.Some?)
    }

    /** What holds whenever nobody owns the client. */
    ghost predicate Valid()
      reads this, wire
    {
      && TrafficOk()
      && session == Live(wire.log)
      && connected == session.Some?
      && CountersOk()
      && recoveredRetries <= totalRetries
    }

    /** Since p, the log has moved on as noted, and the attempts among that are as noted. */
    ghost predicate Traced(p: seq<Event>)
      reads this, wire
    {
      Grown(p, moved, wire.log) && TriesAre(moved, tried)
    }

    /** Notes one more event of the log. */
    ghost method Trace(p: seq<Event>, was: seq<Event>, e: Event)
      requires wire.log == was + [e] && Grown(p, moved, was) && TriesAre(moved, tried)
      modifies `moved, `tried
      ensures Traced(p) && tried == old(tried) + if IsTry(e) then [e] else []
      ensures NoRequests(old(moved)) && !e.Sent? ==> NoRequests(moved)
    {
      GrownByOne(p, moved, was, e);
      if IsTry(e) {
        NewTry(moved, tried, e);
        tried := tried + [e];
      } else {
        NoTry(moved, tried, e);
      }
      moved := moved + [e];
    }

    method ConnectLocked(ghost p: seq<Event>) returns (err: Option<Err>, ghost dial: Event)
      requires TrafficOk() && session == Live(wire.log) && Traced(p)
      modifies wire, `session, `connected, `moved, `tried
      ensures TrafficOk() && session == Live(wire.log) && connected == session.Some?
      ensures dial.Dialed? && dial.sid == old(wire.dials) && wire.dials == old(wire.dials) + 1 && wire.clock >= old(wire.clock)
      ensures wire.log == old(wire.log) + Closing(old(session)) + [dial] + if dial.err.Some? then [Closed(dial.sid)] else []
      ensures session == if dial.err.None? then Some(dial.sid) else None
      ensures err == if dial.err.None? then None else Some(Annotated(dial.err.value))
      ensures Traced(p) && (NoRequests(old(moved)) ==> NoRequests(moved))
      ensures tried == old(tried) + if dial.err.Some? then [dial] else []
      ensures old(session).None? && Thrifty(old(wire.log), |p|) ==> Thrifty(wire.log, |p|)
      ensures Rested(old(wire.log), requestDelay, old(wire.clock)) ==> Rested(wire.log, requestDelay, wire.clock)
    {
      ghost var was := wire.log;
      if session.Some? { CloseWire(session.value, p); }
      assert wire.log == was + Closing(session);
      var sid, failure := DialWire(p);
      dial := Dialed(sid, failure);
      if failure.Some? {
        CloseWire(sid, p);
        session, connected := None, false;
        err := Some(Annotated(failure.value));
      } else {
        session, connected := Some(sid), true;
        err := None;
      }
    }

    /** Closing a session, as one event of the log. */
    method CloseWire(sid: nat, ghost p: seq<Event>)
      requires TrafficOk() && Traced(p)
      modifies wire, `moved, `tried
      ensures TrafficOk() && wire.log == old(wire.log) + [Closed(sid)] && wire.clock >= old(wire.clock) && wire.dials == old(wire.dials)
      ensures Live(wire.log) == if Live(old(wire.log)) == Some(sid) then None else Live(old(wire.log))
      ensures Traced(p) && tried == old(tried) && (NoRequests(old(moved)) ==> NoRequests(moved))
      ensures Live(old(wire.log)).None? && Thrifty(old(wire.log), |p|) ==> Thrifty(wire.log, |p|)
      ensures Rested(old(wire.log), requestDelay, old(wire.clock)) ==> Rested(wire.log, requestDelay, wire.clock)
    {
      ghost var was := wire.log;
      wire.Close(sid);
      Extend(was, Closed(sid));
      Trace(p, was, Closed(sid));
      if Live(was).None? && Thrifty(was, |p|) { ThriftyExtend(was, Closed(sid), |p|); }
    }

    /** Dialling, as one event of the log. */
    method DialWire(ghost p: seq<Event>) returns (sid: nat, err: DialOutcome)
      requires TrafficOk() && Traced(p)
      modifies wire, `moved, `tried
      ensures TrafficOk() && sid == old(wire.dials) && wire.log == old(wire.log) + [Dialed(sid, err)]
      ensures wire.clock >= old(wire.clock) && wire.dials == old(wire.dials) + 1
      ensures Live(wire.log) == if err.None? then Some(sid) else Live(old(wire.log))
      ensures Traced(p) && (NoRequests(old(moved)) ==> NoRequests(moved))
      ensures tried == old(tried) + if err.Some? then [Dialed(sid, err)] else []
      ensures Live(old(wire.log)).None? && Thrifty(old(wire.log), |p|) ==> Thrifty(wire.log, |p|)
      ensures Rested(old(wire.log), requestDelay, old(wire.clock)) ==> Rested(wire.log, requestDelay, wire.clock)
    {
      ghost var was := wire.log;
      sid, err := wire.Dial();
      Extend(was, Dialed(sid, err));
      Trace(p, was, Dialed(sid, err));
      if Live(was).None? && Thrifty(was, |p|) { ThriftyExtend(was, Dialed(sid, err), |p|); }
    }

    method DisconnectLocked(ghost p: seq<Event>)
      requires TrafficOk() && Traced(p) && (session.None? ==> Live(wire.log).None?)
      requires session.Some? ==> Live(wire.log).None? || Live(wire.log) == session
      modifies wire, `session, `connected, `moved, `tried
      ensures TrafficOk() && session.None? && Live(wire.log).None? && !connected
      ensures wire.log == old(wire.log) + Closing(old(session))
      ensures wire.dials == old(wire.dials) && wire.clock >= old(wire.clock)
      ensures Traced(p) && tried == old(tried) && (NoRequests(old(moved)) ==> NoRequests(moved))
      ensures Live(old(wire.log)).None? && Thrifty(old(wire.log), |p|) ==> Thrifty(wire.log, |p|)
      ensures Rested(old(wire.log), requestDelay, old(wire.clock)) ==> Rested(wire.log, requestDelay, wire.clock)
    {
      if session.Some? { CloseWire(session.value, p); }
      session, connected := None, false;
    }

    method Connect() returns (err: Option<Err>)
      requires Valid()
      modifies wire, `session, `connected, `moved, `tried
      ensures Valid() && (err.Some? <==> session.None?) && verdicts == old(verdicts)
      ensures wire.log == old(wire.log) + moved && NoRequests(moved)
    {
      ghost var was, dial := wire.log, Closed(0);
      moved, tried := [], [];
      err, dial := ConnectLocked(was);
      GrownIsAppended(was, moved, wire.log);
    }

    method Close()
      requires Valid()
      modifies wire, `session, `connected, `moved, `tried
      ensures Valid() && session.None? && verdicts == old(verdicts)
      ensures wire.log == old(wire.log) + moved && NoRequests(moved)
    {
      ghost var was := wire.log;
      moved, tried := [], [];
      DisconnectLocked(was);
      GrownIsAppended(was, moved, wire.log);
    }

    /** Waits until the next request may go out, or the context ends. */
    method WaitForRequestSlot(ctx: Context) returns (err: Option<Err>)
      requires TrafficOk()
      modifies wire`clock, wire`moves, ctx
      ensures TrafficOk() && wire.clock >= old(wire.clock)
      ensures err.Some? <==> ctx.over
      ensures err.Some? ==> ContextLeaf(err.value)
      ensures old(wire.clock) >= nextRequestAt ==> wire.clock == old(wire.clock)
      ensures err.None? ==> Rested(wire.log, requestDelay, wire.clock)
    {
      if nextRequestAt > wire.clock {
        err := ctx.Error();
        if err.Some? { return; }  // the context ended before the timer fired
        wire.PassUntil(nextRequestAt);
      }
      err := ctx.Error();
    }

    /** Adds to the history. */
    ghost method Note(v: Verdict)
      modifies `verdicts, `said
      ensures verdicts == old(verdicts) + [v] && said == old(said) + [v] && CountersOf(verdicts) == Next(CountersOf(old(verdicts)), v)
    {
      OneMoreVerdict(verdicts, v);
      verdicts, said := verdicts + [v], said + [v];
    }

    method JudgeAttempt(attempt: nat, failure: Option<Kind>)
      requires CountersOk()
      modifies `verdicts, `said, `firstFailures, `firstFailureAt
      ensures CountersOk() && verdicts == old(verdicts) + [Attempted(attempt, failure)] && said == old(said) + [Attempted(attempt, failure)]
    {
      Note(Attempted(attempt, failure));
      if attempt == 1 && Transport(failure) {
        // recordFirstFailure
        if firstFailureAt.None? { firstFailureAt := Some(wire.clock); }
        firstFailures := firstFailures + 1;
      }
    }

    method RecordRetry()
      requires CountersOk()
      modifies `verdicts, `said, `totalRetries
      ensures CountersOk() && verdicts == old(verdicts) + [Retried] && said == old(said) + [Retried] && totalRetries == old(totalRetries) + 1
    {
      Note(Retried);
      totalRetries := totalRetries + 1;
    }

    method RecordSuccess(attempts: nat)
      requires CountersOk()
      modifies `verdicts, `said, `firstFailures, `firstFailureAt, `finalFailures, `recoveredRetries, `connected
      ensures CountersOk() && verdicts == old(verdicts) + [Finished(attempts, None)] && said == old(said) + [Finished(attempts, None)] && connected
      ensures recoveredRetries == old(recoveredRetries) + if attempts == 1 then 0 else 1
    {
      Note(Finished(attempts, None));
      if attempts == 1 {
        firstFailureAt, firstFailures := None, 0;
      } else {
        recoveredRetries := recoveredRetries + 1;
      }
      finalFailures, connected := 0, true;
    }

    method FinalError(e: Err, attempts: nat) returns (r: Err)
      requires CountersOk()
      modifies `verdicts, `said, `finalFailures, `connected
      ensures r == MakeRequestError(e, attempts)
      ensures CountersOk() && verdicts == old(verdicts) + [Finished(attempts, Some(r.kind))] && said == old(said) + [Finished(attempts, Some(r.kind))]
      ensures connected == (old(connected) || r.kind.ProtocolException?)
    {
      r := MakeRequestError(e, attempts);
      Note(Finished(attempts, Some(r.kind)));
      if r.kind.ProtocolException? {
        finalFailures, connected := 0, true;
      } else if !r.kind.ContextCanceled? {
        if TransportKind(r.kind) { finalFailures := finalFailures + 1; }
      }
    }

    /** A request on the wire, as one event of the log, with the pacing mark of a reply. */
    method SendWire(ctx: Context, fc: byte, ghost p: seq<Event>) returns (raw: WireOutcome, ghost e: Event)
      requires TrafficOk() && session.Some? && session == Live(wire.log) && Traced(p)
      requires Rested(wire.log, requestDelay, wire.clock) && !ctx.over && Thrifty(wire.log, |p|)
      modifies wire, ctx, `nextRequestAt, `moved, `tried
      ensures TrafficOk() && wire.dials == old(wire.dials) && wire.clock >= old(wire.clock)
      ensures e.Sent? && e.sid == session.value && e.fc == fc && e.raw == raw && e.ended == ctx.over && wire.log == old(wire.log) + [e]
      ensures Traced(p) && tried == old(tried) + [e] && Thrifty(wire.log, |p|)
      ensures Live(wire.log) == if Harmless(e) then session else None
      ensures raw.Some? ==> Rested(wire.log, requestDelay, wire.clock) && nextRequestAt == old(nextRequestAt)
      ensures raw.None? ==> nextRequestAt == if requestDelay > 0 then wire.clock + requestDelay else old(nextRequestAt)
    {
      ghost var was, dials, clock, next := wire.log, wire.dials, wire.clock, nextRequestAt;
      raw := wire.Send(session.value, fc, ctx);
      e := Sent(session.value, fc, clock, wire.clock, raw, ctx.over);
      ThriftyExtend(was, e, |p|);
      Trace(p, was, e);
      wire.Pass();
      if raw.None? && requestDelay > 0 { nextRequestAt := wire.clock + requestDelay; }
      SoundAfterSend(was, dials, clock, requestDelay, next, e, wire.clock, nextRequestAt);
    }

    /** One wire attempt and what it is taken for: the error path, and the context's own end if the
        failure was not a device exception. */
    method Exchange(ctx: Context, fc: byte, ghost p: seq<Event>) returns (err: Option<Err>, ghost e: Event)
      requires TrafficOk() && session.Some? && session == Live(wire.log) && Traced(p)
      requires Rested(wire.log, requestDelay, wire.clock) && !ctx.over && Thrifty(wire.log, |p|)
      modifies wire, ctx, `nextRequestAt, `moved, `tried
      ensures TrafficOk() && wire.dials == old(wire.dials) && wire.clock >= old(wire.clock)
      ensures e.Sent? && e.sid == session.value && e.fc == fc && wire.log == old(wire.log) + [e]
      ensures Traced(p) && tried == old(tried) + [e] && Thrifty(wire.log, |p|)
      ensures Live(wire.log) == if Harmless(e) then session else None
      ensures (err.None? <==> e.raw.None?) && (e.ended ==> ctx.over)
      ensures err.Some? ==> Rested(wire.log, requestDelay, wire.clock) && FailureOf(fc, err.value, e, ctx.over)
      ensures Interrupted(e) && err.Some? ==> ContextLeaf(err.value)
    {
      var raw;
      raw, e := SendWire(ctx, fc, p);
      if raw.None? { return None, e; }
      err := Some(OnRequestPath(fc, raw.value));
      PathKinds(fc, raw.value);
      if !Classify(err.value).0.ProtocolException? {
        var ctxErr := ctx.Error();
        if ctxErr.Some? {
          LeafFindings(ctxErr.value);
          err := ctxErr;
        }
      }
    }

    // ---------- one request ----------

    /** The state of the client in the middle of a call. */
    ghost predicate Working(n: nat, req: F.Request, m: Mark)
      reads this, wire
    {
      && TrafficOk() && CountersOk()
      && Traced(m.log) && Grown(m.verdicts, said, verdicts) && Thrifty(wire.log, |m.log|)
      && F.Validate(req).None? && 1 <= n <= 2
      && (if n == 1 then recoveredRetries <= totalRetries else recoveredRetries < totalRetries)
    }

    ghost predicate Linked()
      reads this, wire
    {
      session == Live(wire.log) && connected == session.Some?
    }

    /** Pass number n of the loop, before its attempt. */
    ghost predicate Poised(n: nat, req: F.Request, m: Mark)
      reads this, wire
    {
      && Working(n, req, m) && Linked()
      && Passes(req.fc, tried, said, false) && |said| == 2 * n - 2
      && (n == 2 ==> tried[0].sid < session.GetOr(wire.dials))
    }

    /** What holds at the top of the retry loop. */
    ghost predicate Ready(n: nat, slotReady: bool, req: F.Request, m: Mark)
      reads this, wire
    {
      && Poised(n, req, m)
      && (n == 2 ==> session.None?)
      && (slotReady ==> Rested(wire.log, requestDelay, wire.clock))
    }

    /** Pass number n, right after its attempt e. */
    ghost predicate Tested(n: nat, req: F.Request, m: Mark, e: Event)
      reads this, wire
    {
      && Working(n, req, m)
      && |tried| == n && Last(tried) == e
      && Passes(req.fc, Front(tried), said, false) && |said| == 2 * n - 2
      && (n == 2 ==> tried[0].sid < e.sid)
      && IsTry(e) && e.sid < wire.dials
    }

    /** The same for an attempt on the wire, whose session is still in hand. */
    ghost predicate OnWire(e: Event)
      reads this, wire
    {
      e.Sent? && session == Some(e.sid) && connected && Live(wire.log) == if Harmless(e) then session else None
    }

    /** Pass number n, after its attempt has been taken for failure f. */
    ghost predicate Noted(n: nat, req: F.Request, m: Mark, e: Event, f: Option<Kind>, over: bool)
      reads this, wire
    {
      && Working(n, req, m)
      && |tried| == n && Last(tried) == e
      && Passes(req.fc, tried, said, over) && |said| == 2 * n - 1
      && Last(said) == Attempted(n, f)
      && e.sid < wire.dials
    }

    /** What a finished call guarantees. */
    ghost predicate Ended(req: F.Request, m: Mark, over: bool, r: Result<(), Err>)
      reads this, wire
    {
      && Valid()
      && Traced(m.log) && Grown(m.verdicts, said, verdicts) && Thrifty(wire.log, |m.log|)
      && Outcome(req, tried, said, over, r)
      && LeftLive(tried, session)
    }

    /** Records the outcome of the attempt. */
    method NoteTry(n: nat, f: Option<Kind>, req: F.Request, ghost m: Mark, ghost e: Event, ghost over: bool)
      requires Tested(n, req, m, e) && Judged(req.fc, e, f, over)
      modifies `verdicts, `said, `firstFailures, `firstFailureAt
      ensures Noted(n, req, m, e, f, over)
    {
      assert Front(tried) == tried[..n - 1];
      OneMoreTry(req.fc, tried, said, n, f, over);
      GrownByOne(m.verdicts, said, verdicts, Attempted(n, f));
      JudgeAttempt(n, f);
    }

    /** Records that the call goes round again. */
    method NoteRetry(req: F.Request, ghost m: Mark, ghost e: Event, ghost f: Option<Kind>)
      requires Noted(1, req, m, e, f, false) && Linked() && session.None? && Transport(f) && F.IsReadFunction(req.fc)
      modifies `verdicts, `said, `totalRetries
      ensures Poised(2, req, m)
    {
      GrownByOne(m.verdicts, said, verdicts, Retried);
      RecordRetry();
    }

    /** The call ends with error e, which is the outcome that follows from its passes. */
    method EndWith(e: Err, n: nat, attempts: nat, req: F.Request, ghost m: Mark, ghost over: bool) returns (r: Result<(), Err>)
      requires Working(n, req, m) && Linked() && LeftLive(tried, session)
      requires Outcome(req, tried, said + [Finished(attempts, Some(Classify(e).0))], over, Err(MakeRequestError(e, attempts)))
      requires Classify(e).0.ProtocolException? ==> session.Some?
      modifies `verdicts, `said, `finalFailures, `connected
      ensures Ended(req, m, over, r) && r == Err(MakeRequestError(e, attempts))
    {
      GrownByOne(m.verdicts, said, verdicts, Finished(attempts, Some(Classify(e).0)));
      var x := FinalError(e, attempts);
      r := Err(x);
    }

    /** The context ended before this pass made its attempt. */
    method EndByContext(ctx: Context, e: Err, n: nat, req: F.Request, ghost m: Mark) returns (r: Result<(), Err>)
      requires Poised(n, req, m) && ctx.over && ContextLeaf(e)
      modifies `verdicts, `said, `finalFailures, `connected
      ensures Ended(req, m, true, r) && r == Err(MakeRequestError(e, n - 1))
    {
      EndsByContext(req.fc, tried, said, e);
      Conclude(req, tried, said, true, Err(MakeRequestError(e, n - 1)));
      r := EndWith(e, n, n - 1, req, m, true);
    }

    /** The attempt failed for good. */
    method EndByFailure(err: Err, n: nat, req: F.Request, ghost m: Mark, ghost e: Event, ghost over: bool) returns (r: Result<(), Err>)
      requires Noted(n, req, m, e, Some(Classify(err).0), over) && Linked() && LeftLive([e], session)
      requires CauseOf(req.fc, [e], over, err) && (Classify(err).0.ProtocolException? ==> Excepted(e))
      requires n == 1 && F.IsReadFunction(req.fc) && TransportKind(Classify(err).0) ==> over
      modifies `verdicts, `said, `finalFailures, `connected
      ensures Ended(req, m, over, r) && r == Err(MakeRequestError(err, n))
    {
      assert Last(tried) == Last([e]);
      Conclude(req, tried, said, over, Err(MakeRequestError(err, n)));
      r := EndWith(err, n, n, req, m, over);
    }

    /** A connection could not be made: a read's first attempt is retried exactly if the failure is a
        transport failure and the context is live. */
    method AfterFailedConnect(ctx: Context, n: nat, req: F.Request, err: Err, ghost m: Mark, ghost e: Event)
      returns (r: Option<Result<(), Err>>)
      requires Tested(n, req, m, e) && Linked() && e.Dialed? && e.err.Some? && err == Annotated(e.err.value) && session.None?
      modifies this, ctx
      ensures r.None? <==> n == 1 && F.IsReadFunction(req.fc) && Broken(e) && !ctx.over
      ensures r.Some? ==> Ended(req, m, ctx.over, r.value) && r.value == Err(MakeRequestError(err, n))
      ensures r.None? ==> Ready(2, false, req, m)
    {
      var kind := Classify(err).0;
      NoteTry(n, Some(kind), req, m, e, false);
      JudgedByEvent(req.fc, e, Some(kind), false);
      var over := ctx.Error();
      if n == 1 && F.IsReadFunction(req.fc) && TransportKind(kind) && over.None? {
        NoteRetry(req, m, e, Some(kind));
        return None;
      }
      var x := EndByFailure(err, n, req, m, e, ctx.over);
      r := Some(x);
    }

    /** The device replied, but the caller's context is over: the session stays, the call fails. */
    method ReplyTooLate(err: Err, n: nat, req: F.Request, ghost m: Mark, ghost e: Event) returns (r: Result<(), Err>)
      requires Noted(n, req, m, e, None, true) && OnWire(e) && Replied(e) && ContextLeaf(err)
      modifies `verdicts, `said, `finalFailures, `connected
      ensures Ended(req, m, true, r) && r == Err(MakeRequestError(err, n))
    {
      LeafFindings(err);
      Conclude(req, tried, said, true, Err(MakeRequestError(err, n)));
      r := EndWith(err, n, n, req, m, true);
    }

    /** The device replied in time. */
    method Succeed(n: nat, req: F.Request, ghost m: Mark, ghost e: Event) returns (r: Result<(), Err>)
      requires Noted(n, req, m, e, None, false) && OnWire(e) && Replied(e)
      modifies `verdicts, `said, `firstFailures, `firstFailureAt, `finalFailures, `recoveredRetries, `connected
      ensures Ended(req, m, false, r) && r.Ok?
    {
      ghost var vs := said;
      GrownByOne(m.verdicts, said, verdicts, Finished(n, None));
      RecordSuccess(n);
      r := Ok(());
      Conclude(req, tried, vs, false, r);
    }

    /** The device replied: a success exactly if the context is not over. */
    method AfterReply(ctx: Context, n: nat, req: F.Request, ghost m: Mark, ghost e: Event) returns (r: Result<(), Err>)
      requires Tested(n, req, m, e) && OnWire(e) && Replied(e) && e.fc == req.fc && (e.ended ==> ctx.over)
      modifies this, ctx
      ensures Ended(req, m, ctx.over, r) && (r.Ok? <==> !ctx.over)
    {
      ghost var already := ctx.over;
      NoteTry(n, None, req, m, e, already);
      var over := ctx.Error();
      if over.Some? {
        if !already { PassesOver(req.fc, tried, said); }
        r := ReplyTooLate(over.value, n, req, m, e);
      } else {
        r := Succeed(n, req, m, e);
      }
    }

    /** A read's first attempt broke in transport and its context is live: drop the session, go round. */
    method PrepareRetry(req: F.Request, ghost m: Mark, ghost e: Event, ghost f: Option<Kind>)
      requires Noted(1, req, m, e, f, false) && OnWire(e) && !Harmless(e) && F.IsReadFunction(req.fc) && Transport(f)
      requires Rested(wire.log, requestDelay, wire.clock)
      modifies this, wire
      ensures Ready(2, true, req, m)
    {
      DisconnectLocked(m.log);
      NoteRetry(req, m, e, f);
    }

    /** The attempt failed for good: the session stays in use exactly after a genuine exception. */
    method FailAfter(err: Err, n: nat, req: F.Request, ghost m: Mark, ghost e: Event, ghost over: bool) returns (r: Result<(), Err>)
      requires Noted(n, req, m, e, Some(Classify(err).0), over) && OnWire(e) && FailureOf(req.fc, err, e, over)
      requires n == 1 && F.IsReadFunction(req.fc) && TransportKind(Classify(err).0) ==> over
      modifies this, wire
      ensures Ended(req, m, over, r) && r == Err(MakeRequestError(err, n))
      ensures session == if Excepted(e) then Some(e.sid) else None
    {
      if !Classify(err).0.ProtocolException? {
        DisconnectLocked(m.log);
        }
      r := EndByFailure(err, n, req, m, e, over);
    }

    /** The attempt failed: a read's first is retried exactly if it broke in transport and the context
        is live, otherwise the call ends with this error. */
    method AfterFailure(ctx: Context, n: nat, req: F.Request, err: Err, ghost m: Mark, ghost e: Event)
      returns (r: Option<Result<(), Err>>)
      requires Tested(n, req, m, e) && OnWire(e) && FailureOf(req.fc, err, e, ctx.over) && Rested(wire.log, requestDelay, wire.clock)
      modifies this, wire, ctx
      ensures r.None? <==> n == 1 && F.IsReadFunction(req.fc) && Broken(e) && !ctx.over
      ensures r.Some? ==> Ended(req, m, ctx.over, r.value) && r.value == Err(MakeRequestError(err, n))
      ensures r.None? ==> Ready(2, true, req, m)
    {
      var kind := Classify(err).0;
      JudgedByEvent(req.fc, e, Some(kind), ctx.over);
      NoteTry(n, Some(kind), req, m, e, ctx.over);
      var over := ctx.Error();
      if n == 1 && F.IsReadFunction(req.fc) && TransportKind(kind) && over.None? {
        PrepareRetry(req, m, e, Some(kind));
        return None;
      }
      var x := FailAfter(err, n, req, m, e, ctx.over);
      r := Some(x);
    }

    method SendAndTest(ctx: Context, n: nat, req: F.Request, ghost m: Mark) returns (err: Option<Err>, ghost e: Event)
      requires Poised(n, req, m) && session.Some? && Rested(wire.log, requestDelay, wire.clock) && !ctx.over
      modifies wire, ctx, `nextRequestAt, `moved, `tried
      ensures Tested(n, req, m, e) && OnWire(e) && e.fc == req.fc && wire.log == old(wire.log) + [e]
      ensures (err.None? <==> e.raw.None?) && (e.ended ==> ctx.over)
      ensures err.Some? ==> FailureOf(req.fc, err.value, e, ctx.over) && Rested(wire.log, requestDelay, wire.clock)
    {
      LiveWasDialed(wire.log);
      ghost var ts := tried;
      err, e := Exchange(ctx, req.fc, m.log);
      Pushed(ts, e);
      assert Working(n, req, m);
    }

    /** The attempt itself, once there is a session: with a context that is over none is made,
        otherwise one exchange, and its consequences. */
    method TryOnWire(ctx: Context, n: nat, req: F.Request, ghost m: Mark) returns (r: Option<Result<(), Err>>)
      requires Poised(n, req, m) && session.Some? && Rested(wire.log, requestDelay, wire.clock)
      modifies this, wire, ctx
      ensures old(ctx.over) ==> wire.log == old(wire.log)
      ensures r.Some? ==> Ended(req, m, ctx.over, r.value)
      ensures r.None? ==> n == 1 && !ctx.over && Ready(2, true, req, m)
    {
      var over := ctx.Error();
      if over.Some? {
        var x := EndByContext(ctx, over.value, n, req, m);
        return Some(x);
      }
      r := TryLive(ctx, n, req, m);
    }

    method TryLive(ctx: Context, n: nat, req: F.Request, ghost m: Mark) returns (r: Option<Result<(), Err>>)
      requires Poised(n, req, m) && session.Some? && Rested(wire.log, requestDelay, wire.clock) && !ctx.over
      modifies this, wire, ctx
      ensures r.Some? ==> Ended(req, m, ctx.over, r.value)
      ensures r.None? ==> n == 1 && !ctx.over && Ready(2, true, req, m)
    {
      var err, e := SendAndTest(ctx, n, req, m);
      if err.None? {
        var x := AfterReply(ctx, n, req, m, e);
        return Some(x);
      }
      r := AfterFailure(ctx, n, req, err.value, m, e);
    }

    /** The connection for a pass that has none. */
    method Reconnect(n: nat, req: F.Request, ghost m: Mark) returns (err: Option<Err>, ghost e: Event)
      requires Poised(n, req, m) && session.None?
      modifies wire, `session, `connected, `moved, `tried
      ensures Rested(old(wire.log), requestDelay, old(wire.clock)) ==> Rested(wire.log, requestDelay, wire.clock)
      ensures err.None? ==> Poised(n, req, m) && session.Some?
      ensures err.Some? ==> Tested(n, req, m, e) && Linked() && e.Dialed? && e.err.Some? && err.value == Annotated(e.err.value) && session.None?
    {
      ghost var ts := tried;
      err, e := ConnectLocked(m.log);
      assert Working(n, req, m) && Linked();
      if err.Some? {
          assert Front(tried) == ts;
        assert Tested(n, req, m, e);
      } else {
        assert Poised(n, req, m);
      }
    }

    /** The body of the retry loop: the call ends with a result, or goes round once more. */
    method Attempt(ctx: Context, n: nat, req: F.Request, slotReady: bool, ghost m: Mark)
      returns (r: Option<Result<(), Err>>, slot: bool)
      requires Ready(n, slotReady, req, m)
      modifies this, wire, ctx
      ensures r.Some? ==> Ended(req, m, ctx.over, r.value)
      ensures r.None? ==> n == 1 && !ctx.over && Ready(2, slot, req, m)
    {
      slot := slotReady;
      if session.None? {
        var err, e := Reconnect(n, req, m);
        if err.Some? {
          r := AfterFailedConnect(ctx, n, req, err.value, m, e);
          slot := false;
          return;
        }
      }
      if !slot {
        var ctxErr := WaitForRequestSlot(ctx);
        if ctxErr.Some? {
          var x := EndByContext(ctx, ctxErr.value, n, req, m);
          return Some(x), slot;
        }
        slot := true;
      }
      r := TryOnWire(ctx, n, req, m);
    }

    /** A call begins: nothing done yet. */
    ghost method Begin()
      modifies `moved, `tried, `said
      ensures Traced(wire.log) && Grown(verdicts, said, verdicts) && tried == [] && said == []
    {
      moved, tried, said := [], [], [];
    }

    /** One request.  `slave` and the payload do not influence the control flow; a success stands for
        the response bytes. */
    method Execute(ctx: Context, req: F.Request) returns (r: Result<(), Err>)
      requires Valid()
      modifies this, wire, ctx
      ensures Ended(req, Mark(old(wire.log), old(verdicts)), ctx.over, r)
      ensures RetryRules(req.fc, tried)
      ensures old(ctx.over) ==> wire.log == old(wire.log) && r.Err?
    {
      ghost var m := Mark(wire.log, verdicts);
      Begin();
      var refusal := F.Validate(req);
      if refusal.Some? {
        return Err(MakeRequestError(ValidationError(refusal.value, Plain), 0));
      }
      var over := ctx.Error();  // acquire: the context may end while waiting for the client
      if over.Some? {
        return Err(MakeRequestError(over.value, 0));
      }
      r := Run(ctx, req, m);
    }

    /** The retry loop. */
    method Run(ctx: Context, req: F.Request, ghost m: Mark) returns (r: Result<(), Err>)
      requires Ready(1, false, req, m)
      modifies this, wire, ctx
      ensures Ended(req, m, ctx.over, r) && RetryRules(req.fc, tried)
    {
      r := Ok(());
      var attempt, slotReady := 1, false;
      while attempt <= 2
        invariant 1 <= attempt <= 2 && Ready(attempt, slotReady, req, m)
        decreases 2 - attempt
      {
        var outcome, slot := Attempt(ctx, attempt, req, slotReady, m);
        if outcome.Some? {
          OutcomeKeepsRetryRules(req, tried, said, ctx.over, outcome.value);
          return outcome.value;
        }
        attempt, slotReady := attempt + 1, slot;
      }
      assert false;  // the trailing return of the original is never reached
    }
  }

  lemma Pushed<T>(s: seq<T>, x: T)
    ensures Front(s + [x]) == s && Last(s + [x]) == x
  {
  }

  /** The attempts in a stretch of the log, from the end. */
  ghost predicate TriesAre(log: seq<Event>, ts: seq<Event>)
    decreases |log|
  {
    if log == [] then ts == []
    else if IsTry(Last(log)) then ts != [] && Last(ts) == Last(log) && TriesAre(Front(log), Front(ts))
    else TriesAre(Front(log), ts)
  }

  lemma NewTry(log: seq<Event>, ts: seq<Event>, e: Event)
    requires TriesAre(log, ts) && IsTry(e)
    ensures TriesAre(log + [e], ts + [e])
  {
    assert Front(log + [e]) == log && Front(ts + [e]) == ts;
  }

  lemma NoTry(log: seq<Event>, ts: seq<Event>, e: Event)
    requires TriesAre(log, ts) && !IsTry(e)
    ensures TriesAre(log + [e], ts)
  {
    assert Front(log + [e]) == log;
  }

  lemma {:induction false} TriesAreTries(log: seq<Event>, ts: seq<Event>)
    requires TriesAre(log, ts)
    ensures ts == Tries(log)
    decreases |log|
  {
    if log != [] { TriesAreTries(Front(log), if IsTry(Last(log)) then Front(ts) else ts); }
  }

  /** s is p followed by more, element by element from the end. */
  ghost predicate Grown<T>(p: seq<T>, more: seq<T>, s: seq<T>) {
    if more == [] then s == p else s != [] && Last(s) == Last(more) && Grown(p, Front(more), Front(s))
  }

  lemma GrownByOne<T>(p: seq<T>, more: seq<T>, s: seq<T>, x: T)
    requires Grown(p, more, s)
    ensures Grown(p, more + [x], s + [x])
  {
    assert Front(more + [x]) == more && Front(s + [x]) == s;
  }

  lemma {:induction false} GrownIsAppended<T>(p: seq<T>, more: seq<T>, s: seq<T>)
    requires Grown(p, more, s)
    ensures s == p + more
    decreases |more|
  {
    if more != [] { GrownIsAppended(p, Front(more), Front(s)); }
  }

  /** The events of closing what is open. */
  function Closing(session: Option<nat>): seq<Event> { if session.Some? then [Closed(session.value)] else [] }

  /** err is what a failed wire attempt e is taken for. */
  predicate FailureOf(fc: byte, err: Err, e: Event, over: bool) {
    && e.Sent? && e.raw.Some? && CauseOf(fc, [e], over, err)
    && Judged(fc, e, Some(Classify(err).0), over)
    && (Classify(err).0.ProtocolException? <==> Harmless(e))
  }

  // ---------- whole runs ----------

  /** A session on which an attempt failed badly carries no later attempt. */
  predicate NeverReused(log: seq<Event>) {
    forall i, j :: 0 <= i < j < |log| && log[i].Sent? && log[j].Sent? && !Harmless(log[i]) ==> log[j].sid != log[i].sid
  }

  predicate Spaced(log: seq<Event>, delay: int) {
    forall i, j :: 0 <= i < j < |log| && log[i].Sent? && log[j].Sent? && log[i].raw.None? ==> log[i].done + delay <= log[j].at
  }

  /** What holds of the traffic of a client nobody owns. */
  lemma HistoryOfAnIdleClient(c: Client)
    requires c.Valid()
    ensures NeverReused(c.wire.log) && Spaced(c.wire.log, c.requestDelay)
  {
    var log := c.wire.log;
    forall i, j | 0 <= i < j < |log| && log[i].Sent? && log[j].Sent?
      ensures !Harmless(log[i]) ==> log[j].sid != log[i].sid
      ensures log[i].raw.None? ==> log[i].done + c.requestDelay <= log[j].at
    {
      if !Harmless(log[i]) { NoPoisonedReuse(log, i, j); }
      if log[i].raw.None? { PacedRun(log, c.requestDelay, i, j); }
    }
  }

  /** What the health fields of an idle client say about the calls it has served: the streaks, the
      totals and the degraded mark are counts of calls, and it is connected exactly if the last call
      that had a say in it left a session. */
  lemma HealthOfAnIdleClient(c: Client, calls: seq<Call>, records: seq<Record>, k: nat)
    requires c.Valid() && RunOk(c.wire.log, c.verdicts, calls, records) && k <= |records|
    ensures (k == 0 || AtOnce(records[k - 1])) && (forall i :: k <= i < |records| ==> !AtOnce(records[i])) ==>
              c.firstFailures == Count(records[k..], FirstTryFailed)
    ensures (k == 0 || Reached(records[k - 1])) && (forall i :: k <= i < |records| ==> !Reached(records[i])) ==>
              c.finalFailures == Count(records[k..], Failed)
    ensures c.totalRetries == Count(records, TriedAgain) && c.recoveredRetries == Count(records, Recovered)
    ensures c.recoveredRetries <= c.totalRetries && (c.firstFailureAt.Some? <==> c.firstFailures > 0)
    ensures c.connected <==> c.session.Some?
    ensures records != [] ==> SessionAfter(Last(calls), Last(records), c.session)
  {
    CountersCountCalls(c.wire.log, c.verdicts, calls, records, k);
  }

  /** What the last call says about the session: closed, connected as reported, or kept by a reply or a
      genuine exception. */
  predicate SessionAfter(call: Call, r: Record, session: Option<nat>) {
    match call
    case DoConnect => session.Some? <==> r.result.Ok?
    case DoClose => session.None?
    case DoExecute(_, _, _) => LeftLive(Tries(r.events), session)
  }

  method Perform(c: Client, call: Call) returns (ghost record: Record)
    requires c.Valid()
    modifies c, c.wire
    ensures c.Valid() && c.wire.log == old(c.wire.log) + record.events && c.verdicts == old(c.verdicts) + record.h
    ensures record.log0 == old(c.wire.log) && record.vs0 == old(c.verdicts) && CallKept(c.wire.log, call, record)
  {
    ghost var log, vs := c.wire.log, c.verdicts;
    match call
    case DoConnect =>
      var err := c.Connect();
      record := Record(log, c.moved, vs, [], false, if err.None? then Ok(()) else Err(err.value));
    case DoClose =>
      c.Close();
      record := Record(log, c.moved, vs, [], false, Ok(()));
    case DoExecute(req, ends, late) =>
      var ctx := new Context(ends, late);
      var r := c.Execute(ctx, req);
      record := Record(log, c.moved, vs, c.said, ctx.over, r);
      TriesAreTries(c.moved, c.tried);
      GrownIsAppended(log, c.moved, c.wire.log);
      GrownIsAppended(vs, c.said, c.verdicts);
  }

  /** Every sequence of calls on a new client, against every upstream and every context: the log and
      the verdicts are those of the calls, no session that failed badly is used again, attempts keep
      their distance from earlier replies, and a sound session is kept from request to request. */
  method AnyRun(wire: Wire, requestDelay: int, calls: seq<Call>) returns (c: Client, ghost records: seq<Record>)
    requires wire.Valid() && wire.log == []
    modifies wire
    ensures c.wire == wire && c.requestDelay == requestDelay && c.Valid()
    ensures RunOk(wire.log, c.verdicts, calls, records)
    ensures NeverReused(wire.log) && Spaced(wire.log, requestDelay) && KeepsSessions(wire.log, calls, records)
  {
    c := new Client(wire, requestDelay);
    records := PerformAll(c, calls);
    HistoryOfAnIdleClient(c);
    RunKeepsAllSessions(wire.log, c.verdicts, calls, records);
  }

  /** One more call of a run. */
  method PerformNext(c: Client, call: Call, ghost calls: seq<Call>, ghost records: seq<Record>) returns (ghost record: Record)
    requires c.Valid() && RunOk(c.wire.log, c.verdicts, calls, records)
    modifies c, c.wire
    ensures c.Valid() && RunOk(c.wire.log, c.verdicts, calls + [call], records + [record])
  {
    ghost var log, vs := c.wire.log, c.verdicts;
    record := Perform(c, call);
    OneMoreCall(log, vs, calls, records, c.wire.log, c.verdicts, call, record);
  }

  method PerformAll(c: Client, calls: seq<Call>) returns (ghost records: seq<Record>)
    requires c.Valid() && RunOk(c.wire.log, c.verdicts, [], [])
    modifies c, c.wire
    ensures c.Valid() && RunOk(c.wire.log, c.verdicts, calls, records)
    decreases |calls|
  {
    if calls == [] { return []; }
    var first, last := Front(calls), Last(calls);
    assert first + [last] == calls;
    records := PerformAll(c, first);
    ghost var record := PerformNext(c, last, first, records);
    records := records + [record];
  }

  /** Positions i and j of the log belong to calls a to b, all of them requests. */
  ghost predicate WithinRequests(calls: seq<Call>, records: seq<Record>, a: nat, b: nat, i: nat, j: nat) {
    && a <= b < |records| <= |calls| && (forall k :: a <= k <= b ==> calls[k].DoExecute?)
    && |records[a].log0| <= i < j < |records[b].log0| + |records[b].events|
  }

  /** Positions i and j are wire attempts, and none from i on to before j failed badly. */
  predicate SoundBetween(log: seq<Event>, i: nat, j: nat) {
    i < j < |log| && log[i].Sent? && log[j].Sent? && forall k :: i <= k < j && log[k].Sent? ==> Harmless(log[k])
  }

  /** Between two attempts with only requests in between and no bad failure, the session is the same. */
  ghost predicate KeepsSessions(log: seq<Event>, calls: seq<Call>, records: seq<Record>) {
    forall a: nat, b: nat, i: nat, j: nat :: WithinRequests(calls, records, a, b, i, j) && SoundBetween(log, i, j) ==> log[j].sid == log[i].sid
  }

  lemma RunKeepsAllSessions(log: seq<Event>, vs: seq<Verdict>, calls: seq<Call>, records: seq<Record>)
    requires RunOk(log, vs, calls, records) && Disciplined(log)
    ensures KeepsSessions(log, calls, records)
  {
    forall a: nat, b: nat, i: nat, j: nat | WithinRequests(calls, records, a, b, i, j) && SoundBetween(log, i, j)
      ensures log[j].sid == log[i].sid
    {
      RunKeepsSessions(log, vs, calls, records, a, b, i, j);
    }
  }
}
