/**
 What one call of the upstream client does, as a value: its attempts, what each is taken to mean,
 what is recorded for the health counters, and how the call ends.  The client in UpstreamClient is
 proved to behave like this; the lemmas here say what follows.
 */
module Calls {
  import opened Wrappers
  import opened Bytes
  import opened Errors
  import opened Upstream
  import F = Frames

  /** What a call decides on its way: the outcome of each attempt (None for a reply), that it tries
      again, and how it ends (None for success). */
  datatype Verdict =
    | Attempted(number: nat, failure: Option<Kind>)
    | Retried
    | Finished(attempts: nat, failure: Option<Kind>)

  predicate Transport(k: Option<Kind>) { k.Some? && TransportKind(k.value) }

  // ---------- one attempt ----------

  /** The attempt failed on the wire, while the context was live, and neither with a genuine exception
      nor with a context error. */
  predicate BrokeInTransport(e: Event) {
    e.Sent? && e.raw.Some? && !e.ended && !Genuine(e.fc, e.raw.value) && !MentionsContext(e.raw.value)
  }

  /** The attempt failed in transport: on the wire, or because the connection to be made was broken, as its
      error says. */
  predicate Broken(e: Event) {
    BrokeInTransport(e) || (e.Dialed? && e.err.Some? && !MentionsContext(e.err.value) && LinkBroken(e.err.value))
  }

  /** The device answered, with an exception of its own. */
  predicate Excepted(e: Event) { e.Sent? && e.raw.Some? && Harmless(e) }

  /** The context was over by the time the attempt came back, with anything but a genuine exception. */
  predicate Interrupted(e: Event) { e.Sent? && e.ended && !Excepted(e) }

  predicate Replied(e: Event) { e.Sent? && e.raw.None? }

  /** The error of a failed attempt as the retry loop sees it. */
  predicate FailedWith(fc: byte, e: Event, err: Err) {
    || (e.Dialed? && e.err.Some? && err == Annotated(e.err.value))
    || (e.Sent? && e.raw.Some? && err == OnRequestPath(fc, e.raw.value))
  }

  /** Failure f is what attempt e is taken for.  The end of the caller's context stands in for any failure
      but a genuine exception: it does if the context was over when the attempt came back, and it can if the
      context ended later. */
  predicate Judged(fc: byte, e: Event, f: Option<Kind>, over: bool) {
    match e
    case Closed(_) => false
    case Dialed(_, err) => err.Some? && f == Some(Classify(Annotated(err.value)).0)
    case Sent(_, sentFc, _, _, raw, ended) =>
      && sentFc == fc && (ended ==> over)
      && if raw.None? then f.None? else
         var k := Classify(OnRequestPath(fc, raw.value)).0;
         f.Some? && if k.ProtocolException? then f.value == k
                    else if ended then ContextKind(f.value)
                    else f.value == k || (over && ContextKind(f.value))
  }

  /** How an attempt is taken follows from what happened, up to the end of the context. */
  lemma JudgedByEvent(fc: byte, e: Event, f: Option<Kind>, over: bool)
    requires Judged(fc, e, f, over)
    ensures f.None? <==> Replied(e)
    ensures f == Some(ProtocolException) <==> Excepted(e)
    ensures Transport(f) ==> Broken(e) && !(e.Sent? && Harmless(e))
    ensures Broken(e) && !over ==> Transport(f)
    ensures Interrupted(e) ==> over && (f.Some? ==> ContextKind(f.value))
  {
    if e.Sent? && e.raw.Some? { PathKinds(fc, e.raw.value); }
    if e.Dialed? {
      SearchThrough(Annotated(e.err.value));
      ForeignKind(e.err.value);
    }
  }

  // ---------- the passes of the retry loop ----------

  /** The attempts ts of a call and what has been recorded for them: nothing yet, a first attempt,
      that it is retried, a second attempt on a newer session. */
  predicate Passes(fc: byte, ts: seq<Event>, vs: seq<Verdict>, over: bool) {
    && |vs| <= 3 && |ts| == (|vs| + 1) / 2
    && (|vs| >= 1 ==> vs[0].Attempted? && vs[0].number == 1 && Judged(fc, ts[0], vs[0].failure, over))
    && (|vs| >= 2 ==> vs[1].Retried? && F.IsReadFunction(fc) && Transport(vs[0].failure))
    && (|vs| == 3 ==>
          && vs[2].Attempted? && vs[2].number == 2 && Judged(fc, ts[1], vs[2].failure, over)
          && ts[0].sid < ts[1].sid)
  }

  lemma OneMoreTry(fc: byte, ts: seq<Event>, vs: seq<Verdict>, n: nat, f: Option<Kind>, over: bool)
    requires 1 <= n <= 2 && |ts| == n && Passes(fc, ts[..n - 1], vs, false) && |vs| == 2 * n - 2
    requires Judged(fc, ts[n - 1], f, over) && (n == 2 ==> ts[0].sid < ts[1].sid)
    ensures Passes(fc, ts, vs + [Attempted(n, f)], over)
  {
  }

  /** The rules for attempts: only reads make two, and the second only after a first that failed in
      transport, and on a newer session. */
  predicate RetryRules(fc: byte, ts: seq<Event>) {
    && (forall i :: 0 <= i < |ts| ==> IsTry(ts[i]) && (ts[i].Sent? ==> ts[i].fc == fc))
    && |ts| <= (if F.IsReadFunction(fc) then 2 else 1)
    && (|ts| == 2 ==> Broken(ts[0]) && ts[0].sid < ts[1].sid)
  }

  lemma PassesKeepRetryRules(fc: byte, ts: seq<Event>, vs: seq<Verdict>, over: bool)
    requires Passes(fc, ts, vs, over)
    ensures RetryRules(fc, ts)
  {
    if |vs| >= 1 { JudgedByEvent(fc, ts[0], vs[0].failure, over); }
  }

  // ---------- how a call ends ----------

  function Last<T>(s: seq<T>): T
    requires s != []
  {
    s[|s| - 1]
  }

  function Front<T>(s: seq<T>): seq<T>
    requires s != []
  {
    s[..|s| - 1]
  }

  predicate ContextLeaf(e: Err) { e.DeadlineExceeded? || e.Canceled? }

  /** Error e is why a call with these attempts fails: the device's own exception if there was one; the
      end of the context if it interrupted the last attempt; otherwise the end of the context, or the
      failure of the last attempt. */
  predicate CauseOf(fc: byte, ts: seq<Event>, over: bool, e: Err) {
    if ts != [] && Excepted(Last(ts)) then e == Last(ts).raw.value
    else if ts != [] && Interrupted(Last(ts)) then over && ContextLeaf(e)
    else (over && ContextLeaf(e)) || (ts != [] && FailedWith(fc, Last(ts), e))
  }

  /** A read's first transport failure is left at that only if the context is over. */
  predicate RetriedIfDue(fc: byte, vs: seq<Verdict>, over: bool) {
    |vs| == 1 && vs[0].Attempted? && Transport(vs[0].failure) && F.IsReadFunction(fc) ==> over
  }

  /** What the last attempt was taken for is how the call ends, unless a reply came too late. */
  predicate EndsAsJudged(vs: seq<Verdict>, over: bool, kind: Kind) {
    |vs| % 2 == 1 ==> Last(vs).Attempted? && (Last(vs).failure == Some(kind) || (Last(vs).failure.None? && over))
  }

  predicate CallError(fc: byte, ts: seq<Event>, vs: seq<Verdict>, over: bool, e: Err) {
    && e.RequestError? && e == MakeRequestError(e.inner, |ts|)
    && CauseOf(fc, if |vs| == 2 then [] else ts, over, e.inner)
    && EndsAsJudged(vs, over, e.kind)
  }

  function FailureKind(r: Result<(), Err>): Option<Kind>
    requires r.Err? ==> r.error.RequestError?
  {
    if r.Ok? then None else Some(r.error.kind)
  }

  predicate CallResult(fc: byte, ts: seq<Event>, vs: seq<Verdict>, over: bool, r: Result<(), Err>) {
    match r
    case Ok(_) => !over && ts != [] && Replied(Last(ts)) && |vs| % 2 == 1
    case Err(e) => CallError(fc, ts, vs, over, e)
  }

  /** A call that came to own the client: its passes, then its end. */
  predicate Recorded(fc: byte, ts: seq<Event>, h: seq<Verdict>, over: bool, r: Result<(), Err>) {
    && h != []
    && Passes(fc, ts, Front(h), over)
    && RetriedIfDue(fc, Front(h), over)
    && CallResult(fc, ts, Front(h), over, r)
    && Last(h) == Finished(|ts|, FailureKind(r))
  }

  /** A whole call: refused by validation, given up while waiting for the client, or recorded. */
  predicate Outcome(req: F.Request, ts: seq<Event>, h: seq<Verdict>, over: bool, r: Result<(), Err>) {
    if F.Validate(req).Some? then
      ts == [] && h == [] && r == Err(MakeRequestError(ValidationError(F.Validate(req).value, Plain), 0))
    else if h == [] then
      ts == [] && over && r.Err? && r.error.RequestError? && r.error == MakeRequestError(r.error.inner, 0) && ContextLeaf(r.error.inner)
    else Recorded(req.fc, ts, h, over, r)
  }

  /** A sound last attempt leaves its session in place. */
  predicate LeftLive(ts: seq<Event>, session: Option<nat>) {
    ts != [] && Last(ts).Sent? && Harmless(Last(ts)) ==> session == Some(Last(ts).sid)
  }

  // ---------- what follows for a call ----------

  lemma Conclude(req: F.Request, ts: seq<Event>, vs: seq<Verdict>, over: bool, r: Result<(), Err>)
    requires F.Validate(req).None? && Passes(req.fc, ts, vs, over) && RetriedIfDue(req.fc, vs, over) && CallResult(req.fc, ts, vs, over, r)
    ensures Outcome(req, ts, vs + [Finished(|ts|, FailureKind(r))], over, r)
  {
    var h := vs + [Finished(|ts|, FailureKind(r))];
    assert Front(h) == vs;
  }

  /** A call that ends between two attempts ends because of its context, whatever came before. */
  lemma EndsByContext(fc: byte, ts: seq<Event>, vs: seq<Verdict>, e: Err)
    requires Passes(fc, ts, vs, false) && |vs| % 2 == 0 && ContextLeaf(e)
    ensures Passes(fc, ts, vs, true) && RetriedIfDue(fc, vs, true) && CallError(fc, ts, vs, true, MakeRequestError(e, |ts|))
    ensures !Classify(e).0.ProtocolException? && (ts != [] ==> !Last(ts).Sent? || !Harmless(Last(ts)))
  {
    LeafFindings(e);
    PassesOver(fc, ts, vs);
    if |vs| == 2 { JudgedByEvent(fc, ts[0], vs[0].failure, false); }
  }

  lemma PassesOver(fc: byte, ts: seq<Event>, vs: seq<Verdict>)
    requires Passes(fc, ts, vs, false)
    ensures Passes(fc, ts, vs, true)
  {
  }

  lemma OutcomeKeepsRetryRules(req: F.Request, ts: seq<Event>, h: seq<Verdict>, over: bool, r: Result<(), Err>)
    requires Outcome(req, ts, h, over, r)
    ensures RetryRules(req.fc, ts)
    ensures r.Err? ==> r.error.RequestError? && r.error.attempts == |ts| <= 2
  {
    if h != [] { PassesKeepRetryRules(req.fc, ts, Front(h), over); }
  }

  /** A call ends with a protocol exception exactly if its last attempt met one, and the error it
      returns is then the device's own; it succeeds exactly if its last attempt got a reply and its
      context is not over. */
  lemma ResultIsTheDevices(req: F.Request, ts: seq<Event>, h: seq<Verdict>, over: bool, r: Result<(), Err>)
    requires Outcome(req, ts, h, over, r)
    ensures r.Err? && r.error.RequestError? && r.error.kind.ProtocolException? <==> ts != [] && Excepted(Last(ts))
    ensures ts != [] && Excepted(Last(ts)) ==> r.Err? && r.error.RequestError? && r.error.inner == Last(ts).raw.value
    ensures r.Ok? <==> ts != [] && Replied(Last(ts)) && !over
  {
    if F.Validate(req).Some? {
      ValidationIsLocal(F.Validate(req).value);
    } else if h == [] {
      LeafFindings(r.error.inner);
    } else if |Front(h)| % 2 == 1 {
      AttemptDecides(req.fc, ts, Front(h), over, r);
    } else {
      ContextDecides(req.fc, ts, Front(h), over, r);
    }
  }

  /** A call that ends right after an attempt. */
  lemma AttemptDecides(fc: byte, ts: seq<Event>, vs: seq<Verdict>, over: bool, r: Result<(), Err>)
    requires Passes(fc, ts, vs, over) && CallResult(fc, ts, vs, over, r) && |vs| % 2 == 1
    ensures r.Err? ==> (r.error.kind.ProtocolException? <==> Excepted(Last(ts)))
    ensures Excepted(Last(ts)) ==> r.Err? && r.error.inner == Last(ts).raw.value
    ensures r.Ok? <==> Replied(Last(ts)) && !over
  {
    JudgedByEvent(fc, Last(ts), Last(vs).failure, over);
    if r.Err? && ContextLeaf(r.error.inner) { LeafFindings(r.error.inner); }
  }

  /** An attempt that the end of the context interrupted is the last of its call: the call ends with the
      context's error, and what it records is a context error, no transport failure. */
  lemma InterruptedAttemptEndsTheCall(req: F.Request, ts: seq<Event>, h: seq<Verdict>, over: bool, r: Result<(), Err>, i: nat)
    requires Outcome(req, ts, h, over, r) && i < |ts| && Interrupted(ts[i])
    ensures i == |ts| - 1 && over
    ensures r.Err? && r.error.RequestError? && ContextLeaf(r.error.inner) && ContextKind(r.error.kind)
    ensures |h| == 2 * |ts| && h[2 * i].Attempted? && !Transport(h[2 * i].failure) && !Transport(FailureKind(r))
  {
    InterruptedIsLast(req.fc, ts, Front(h), over, i);
    InterruptedResult(req.fc, ts, Front(h), over, r);
  }

  lemma InterruptedIsLast(fc: byte, ts: seq<Event>, vs: seq<Verdict>, over: bool, i: nat)
    requires Passes(fc, ts, vs, over) && i < |ts| && Interrupted(ts[i])
    ensures i == |ts| - 1 && over && |vs| == 2 * |ts| - 1 && vs[2 * i].Attempted? && !Transport(vs[2 * i].failure)
  {
    JudgedByEvent(fc, ts[0], vs[0].failure, over);
    if |vs| == 3 { JudgedByEvent(fc, ts[1], vs[2].failure, over); }
  }

  lemma InterruptedResult(fc: byte, ts: seq<Event>, vs: seq<Verdict>, over: bool, r: Result<(), Err>)
    requires CallResult(fc, ts, vs, over, r) && over && ts != [] && Interrupted(Last(ts)) && |vs| != 2
    ensures r.Err? && ContextLeaf(r.error.inner) && ContextKind(r.error.kind)
  {
    LeafFindings(r.error.inner);
  }

  /** A call that ends between attempts. */
  lemma ContextDecides(fc: byte, ts: seq<Event>, vs: seq<Verdict>, over: bool, r: Result<(), Err>)
    requires Passes(fc, ts, vs, over) && CallResult(fc, ts, vs, over, r) && |vs| % 2 == 0
    ensures r.Err? && ContextKind(r.error.kind) && over && (ts != [] ==> Broken(Last(ts)) && !Excepted(Last(ts)))
  {
    if |vs| == 2 { JudgedByEvent(fc, ts[0], vs[0].failure, over); }
    assert ContextLeaf(r.error.inner);
    LeafFindings(r.error.inner);
  }

  lemma ValidationIsLocal(code: nat)
    ensures Classify(ValidationError(code, Plain)) == (LocalError, code)
    ensures Search(ValidationError(code, Plain)) == Nothing.(validation := Some(ValidationError(code, Plain)))
  {
    LeafFindings(Plain);
    SearchThrough(ValidationError(code, Plain));
  }

  // ---------- the code sent downstream ----------

  /** The reasons a call can fail for: its context is over, the request was rejected, there was no
      connection, or what the request path made of a wire attempt's error. */
  ghost predicate Cause(fc: byte, e: Err) {
    || ContextLeaf(e)
    || (e.ValidationError? && e.code != 0 && e.inner.Plain?)
    || (exists ev: Event :: FailedWith(fc, ev, e))
  }

  /** The exception code for a cause: the device's own for a genuine exception, the refusal's for a
      rejected request, 0x04 for an error that speaks of no context, upstream or connection trouble, as a
      failed connect's can, 0x0B for the rest. */
  function CodeFor(fc: byte, e: Err): nat {
    if e.ValidationError? then e.code
    else if Genuine(fc, e) then Search(e).modbus.value.code
    else if !MentionsContext(e) && !Search(e).upstream && !LinkBroken(e) then SERVER_FAILURE
    else GATEWAY_TARGET_FAILED
  }

  lemma OutcomeHasACause(req: F.Request, ts: seq<Event>, h: seq<Verdict>, over: bool, r: Result<(), Err>)
    requires Outcome(req, ts, h, over, r) && r.Err?
    ensures r.error.RequestError? && r.error == MakeRequestError(r.error.inner, |ts|) && Cause(req.fc, r.error.inner)
  {
    F.ValidatedRequest(req);
    if h != [] && ts != [] && Excepted(Last(ts)) {
      ResultIsTheDevices(req, ts, h, over, r);
      PassesKeepRetryRules(req.fc, ts, Front(h), over);
      assert ts[|ts| - 1].fc == req.fc;
      assert FailedWith(req.fc, Last(ts), r.error.inner);
    }
  }

  /** The code a failed call ends up sending downstream: the one for its cause, not zero, and the
      device's own when the device answered with an exception. */
  lemma CodeOfACall(req: F.Request, ts: seq<Event>, h: seq<Verdict>, over: bool, r: Result<(), Err>, ws: seq<Wrapper>)
    requires Outcome(req, ts, h, over, r) && r.Err?
    ensures r.error.RequestError? && DownstreamException(Wrapped(ws, r.error)) == CodeFor(req.fc, r.error.inner) != 0
    ensures ts != [] && Excepted(Last(ts)) ==> CodeFor(req.fc, r.error.inner) == Search(Last(ts).raw.value).modbus.value.code
  {
    OutcomeHasACause(req, ts, h, over, r);
    ClientErrorHasACode(req.fc, r.error.inner, |ts|, ws);
    if ts != [] && Excepted(Last(ts)) { DevicesCode(req, ts, h, over, r); }
  }

  lemma DevicesCode(req: F.Request, ts: seq<Event>, h: seq<Verdict>, over: bool, r: Result<(), Err>)
    requires Outcome(req, ts, h, over, r) && r.Err? && ts != [] && Excepted(Last(ts))
    ensures r.error.RequestError? && CodeFor(req.fc, r.error.inner) == Search(Last(ts).raw.value).modbus.value.code
  {
    ResultIsTheDevices(req, ts, h, over, r);
    OutcomeKeepsRetryRules(req, ts, h, over, r);
    assert ts[|ts| - 1].fc == req.fc;
  }

  /** No cause is one that a RequestError would hide. */
  lemma CauseIsNotHidden(fc: byte, e: Err)
    requires Cause(fc, e)
    ensures Search(e).request.None? && !ValidationHides(e)
  {
    if ContextLeaf(e) {
      LeafFindings(e);
    } else if e.ValidationError? && e.code != 0 && e.inner.Plain? {
      ValidationIsLocal(e.code);
    } else {
      var ev: Event :| FailedWith(fc, ev, e);
      FailureFindings(fc, ev, e);
    }
  }

  /** Whatever a call fails with, and however it is wrapped on the way, the code sent downstream is
      the one for its cause and not zero; the device's own code appears for genuine exceptions only. */
  lemma ClientErrorHasACode(fc: byte, e: Err, attempts: nat, ws: seq<Wrapper>)
    requires Cause(fc, e)
    ensures DownstreamException(Wrapped(ws, MakeRequestError(e, attempts))) == CodeFor(fc, e) != 0
    ensures Genuine(fc, e) || e.ValidationError? || CodeFor(fc, e) in {SERVER_FAILURE, GATEWAY_TARGET_FAILED}
  {
    if ContextLeaf(e) {
      LeafFindings(e);
      LocalErrorMapping(1, attempts, ws);
    } else if e.ValidationError? && e.code != 0 && e.inner.Plain? {
      LocalErrorMapping(e.code, attempts, ws);
    } else {
      var ev: Event :| FailedWith(fc, ev, e);
      FailureFindings(fc, ev, e);
      if ev.Dialed? {
        ConnectErrorMapping(ev.err.value, attempts, ws);
      } else {
        PathKinds(fc, ev.raw.value);
        WireErrorMapping(fc, ev.raw.value, attempts, ws);
      }
    }
  }

  lemma FailureFindings(fc: byte, ev: Event, e: Err)
    requires FailedWith(fc, ev, e)
    ensures Search(e).validation.None? && Search(e).request.None?
    ensures ev.Dialed? ==> Search(e) == Search(ev.err.value) && Search(e).modbus.None? && !Search(e).upstream
    ensures ev.Sent? ==> Search(e) == if e == ev.raw.value then Search(ev.raw.value) else Search(ev.raw.value).(upstream := true)
  {
    if ev.Dialed? { SearchThrough(Annotated(ev.err.value)); } else { PathKinds(fc, ev.raw.value); }
  }

  // ---------- what a call does to the health counters ----------

  /** A success on a first attempt. */
  predicate FirstSuccess(v: Verdict) { v.Finished? && v.attempts == 1 && v.failure.None? }

  /** A first attempt that failed in transport. */
  predicate FirstFailure(v: Verdict) { v.Attempted? && v.number == 1 && Transport(v.failure) }

  /** The device is reachable: a success or a genuine exception. */
  predicate Answered(v: Verdict) { v.Finished? && (v.failure.None? || v.failure.value.ProtocolException?) }

  /** A call that ended in a transport failure. */
  predicate FinalFailure(v: Verdict) { v.Finished? && Transport(v.failure) }

  /** A success after a retry. */
  predicate Recovery(v: Verdict) { v.Finished? && v.attempts != 1 && v.failure.None? }

  datatype Counters = Counters(first: nat, final: nat, retries: nat, recovered: nat, degraded: bool)

  const Zero := Counters(0, 0, 0, 0, false)

  function Next(c: Counters, v: Verdict): Counters {
    Counters(if FirstSuccess(v) then 0 else if FirstFailure(v) then c.first + 1 else c.first,
             if Answered(v) then 0 else if FinalFailure(v) then c.final + 1 else c.final,
             if v.Retried? then c.retries + 1 else c.retries,
             if Recovery(v) then c.recovered + 1 else c.recovered,
             if FirstSuccess(v) then false else if FirstFailure(v) then true else c.degraded)
  }

  /** The counters after a history. */
  function CountersOf(vs: seq<Verdict>): Counters {
    if vs == [] then Zero else Next(CountersOf(Front(vs)), Last(vs))
  }

  lemma OneMoreVerdict(vs: seq<Verdict>, v: Verdict)
    ensures CountersOf(vs + [v]) == Next(CountersOf(vs), v)
  {
    assert Front(vs + [v]) == vs;
  }

  /** A finished call: the log and the verdicts before it, its own events, what it recorded, whether
      its context was over, its result. */
  datatype Record = Record(log0: seq<Event>, events: seq<Event>, vs0: seq<Verdict>, h: seq<Verdict>, over: bool, result: Result<(), Err>)

  /** The call succeeded on its first attempt. */
  predicate AtOnce(r: Record) { r.h != [] && FirstSuccess(Last(r.h)) }

  /** Its first attempt failed in transport. */
  predicate FirstTryFailed(r: Record) { r.h != [] && FirstFailure(r.h[0]) }

  /** It got a reply or a genuine exception. */
  predicate Reached(r: Record) { r.h != [] && Answered(Last(r.h)) }

  /** It ended in a transport failure. */
  predicate Failed(r: Record) { r.h != [] && FinalFailure(Last(r.h)) }

  /** It went round a second time. */
  predicate TriedAgain(r: Record) { |r.h| > 1 && r.h[1].Retried? }

  /** It succeeded on its second attempt. */
  predicate Recovered(r: Record) { r.h != [] && Recovery(Last(r.h)) }

  predicate IsOutcome(req: F.Request, r: Record) { Outcome(req, Tries(r.events), r.h, r.over, r.result) }

  /** What these mean for the attempts the call made and for its result. */
  lemma CallMeaning(req: F.Request, r: Record)
    requires IsOutcome(req, r)
    ensures var ts := Tries(r.events);
      && (AtOnce(r) <==> r.result.Ok? && |ts| == 1)
      && (Recovered(r) <==> r.result.Ok? && |ts| == 2)
      && (Reached(r) <==> r.result.Ok? || (ts != [] && Excepted(Last(ts))))
      && (FirstTryFailed(r) ==> ts != [] && Broken(ts[0]))
      && (ts != [] && Broken(ts[0]) && !r.over ==> FirstTryFailed(r))
      && (TriedAgain(r) ==> FirstTryFailed(r) && F.IsReadFunction(req.fc))
      && (FirstTryFailed(r) && F.IsReadFunction(req.fc) && !r.over ==> TriedAgain(r))
      && (Failed(r) ==> ts != [] && Broken(Last(ts)))
      && (ts != [] && Broken(Last(ts)) && !r.over ==> Failed(r))
  {
    var ts := Tries(r.events);
    ResultIsTheDevices(req, ts, r.h, r.over, r.result);
    if r.h != [] && |r.h| > 1 {
      var vs := Front(r.h);
      JudgedByEvent(req.fc, ts[0], vs[0].failure, r.over);
      CallEndsInTransport(req.fc, ts, vs, r.over, r.result);
    }
  }

  lemma CallEndsInTransport(fc: byte, ts: seq<Event>, vs: seq<Verdict>, over: bool, r: Result<(), Err>)
    requires Passes(fc, ts, vs, over) && CallResult(fc, ts, vs, over, r) && ts != []
    ensures Transport(FailureKind(r)) ==> Broken(Last(ts))
    ensures Broken(Last(ts)) && !over ==> Transport(FailureKind(r))
  {
    if |vs| % 2 == 0 {
      ContextDecides(fc, ts, vs, over, r);
    } else {
      LastJudged(fc, ts, vs, over, r);
      var f := Last(vs).failure;
      JudgedByEvent(fc, Last(ts), f, over);
    }
  }

  /** A call that ends right after an attempt ends as that attempt was taken, except that a reply that
      comes too late ends it with the context's error. */
  lemma LastJudged(fc: byte, ts: seq<Event>, vs: seq<Verdict>, over: bool, r: Result<(), Err>)
    requires Passes(fc, ts, vs, over) && CallResult(fc, ts, vs, over, r) && |vs| % 2 == 1
    ensures Judged(fc, Last(ts), Last(vs).failure, over)
    ensures FailureKind(r) == Last(vs).failure || (Last(vs).failure.None? && r.Err? && ContextKind(r.error.kind))
  {
    LastAttempt(fc, ts, vs, over);
    if r.Err? && Last(vs).failure.None? { LateReply(fc, ts, vs, over, r.error); }
  }

  lemma LastAttempt(fc: byte, ts: seq<Event>, vs: seq<Verdict>, over: bool)
    requires Passes(fc, ts, vs, over) && |vs| % 2 == 1
    ensures Last(vs).Attempted? && ts != [] && Judged(fc, Last(ts), Last(vs).failure, over)
    ensures Last(vs).failure.None? <==> Replied(Last(ts))
  {
  }

  lemma LateReply(fc: byte, ts: seq<Event>, vs: seq<Verdict>, over: bool, e: Err)
    requires CallError(fc, ts, vs, over, e) && |vs| != 2 && ts != [] && Replied(Last(ts))
    ensures ContextKind(e.kind) && over
  {
    assert ContextLeaf(e.inner);
    LeafFindings(e.inner);
  }

  // ---------- whole runs ----------

  datatype Call = DoConnect | DoClose | DoExecute(req: F.Request, ends: nat -> bool, late: nat -> bool)

  predicate NoRequests(events: seq<Event>) { forall i :: 0 <= i < |events| ==> !events[i].Sent? }

  /** What one call did, as it left the log: connecting and closing make no request and record
      nothing; executing a request has the outcome described above, gives up no sound session on
      the way and leaves one in place. */
  ghost predicate CallKept(log: seq<Event>, call: Call, r: Record) {
    match call
    case DoConnect => r.h == [] && NoRequests(r.events) && (r.result.Ok? <==> Live(log).Some?)
    case DoClose => r.h == [] && NoRequests(r.events) && Live(log).None?
    case DoExecute(req, _, _) => IsOutcome(req, r) && Thrifty(log, |r.log0|) && LeftLive(Tries(r.events), Live(log))
  }

  /** The log and the verdicts are those of the calls, one after the other. */
  ghost predicate RunOk(log: seq<Event>, vs: seq<Verdict>, calls: seq<Call>, records: seq<Record>)
    decreases |records|
  {
    && |records| == |calls|
    && if records == [] then log == [] && vs == [] else
       var r := Last(records);
       && log == r.log0 + r.events && vs == r.vs0 + r.h
       && CallKept(log, Last(calls), r)
       && RunOk(r.log0, r.vs0, Front(calls), Front(records))
  }

  lemma OneMoreCall(log: seq<Event>, vs: seq<Verdict>, calls: seq<Call>, records: seq<Record>, log': seq<Event>, vs': seq<Verdict>,
                    call: Call, r: Record)
    requires RunOk(log, vs, calls, records) && r.log0 == log && r.vs0 == vs
    requires log' == log + r.events && vs' == vs + r.h && CallKept(log', call, r)
    ensures RunOk(log', vs', calls + [call], records + [r])
  {
    assert Front(calls + [call]) == calls && Front(records + [r]) == records;
  }

  /** Any number of first calls make a run, whose log is as the last of them left it. */
  lemma {:induction false} RunPrefix(log: seq<Event>, vs: seq<Verdict>, calls: seq<Call>, records: seq<Record>, n: nat)
    returns (log0: seq<Event>, vs0: seq<Verdict>)
    requires RunOk(log, vs, calls, records) && 0 < n <= |records|
    ensures log0 <= log && |log0| == |records[n - 1].log0| + |records[n - 1].events|
    ensures RunOk(log0, vs0, calls[..n], records[..n])
    decreases |records|
  {
    if n == |records| {
      log0, vs0 := log, vs;
      assert calls[..n] == calls && records[..n] == records;
    } else {
      var r := Last(records);
      assert Front(calls)[..n] == calls[..n] && Front(records)[..n] == records[..n];
      log0, vs0 := RunPrefix(r.log0, r.vs0, Front(calls), Front(records), n);
    }
  }

  /** Requests at the end of a run, with no other call among them, give up no sound session. */
  lemma {:induction false} RequestsAreThrifty(log: seq<Event>, vs: seq<Verdict>, calls: seq<Call>, records: seq<Record>, a: nat)
    requires RunOk(log, vs, calls, records) && a < |records| && forall k :: a <= k < |calls| ==> calls[k].DoExecute?
    ensures Thrifty(log, |records[a].log0|)
    decreases |records|
  {
    assert Last(calls) == calls[|calls| - 1];
    if a < |records| - 1 {
      var r := Last(records);
      RequestsAreThrifty(r.log0, r.vs0, Front(calls), Front(records), a);
      ThriftyJoined(r.log0, log, |records[a].log0|);
    }
  }

  lemma StretchIsThrifty(log: seq<Event>, vs: seq<Verdict>, calls: seq<Call>, records: seq<Record>, a: nat, b: nat)
    returns (log0: seq<Event>)
    requires RunOk(log, vs, calls, records) && a <= b < |records| && forall k :: a <= k <= b ==> calls[k].DoExecute?
    ensures log0 <= log && |log0| == |records[b].log0| + |records[b].events| && Thrifty(log0, |records[a].log0|)
  {
    var vs0;
    log0, vs0 := RunPrefix(log, vs, calls, records, b + 1);
    var firstCalls, firstRecords := calls[..b + 1], records[..b + 1];
    assert firstRecords[a] == records[a];
    RequestsAreThrifty(log0, vs0, firstCalls, firstRecords, a);
  }

  /** A session that answers is kept: two attempts of a run, in calls a to b with only requests among
      them, and no bad failure among the attempts from the first on, use the same session. */
  lemma RunKeepsSessions(log: seq<Event>, vs: seq<Verdict>, calls: seq<Call>, records: seq<Record>, a: nat, b: nat, i: nat, j: nat)
    requires RunOk(log, vs, calls, records) && Disciplined(log)
    requires a <= b < |records| && forall k :: a <= k <= b ==> calls[k].DoExecute?
    requires |records[a].log0| <= i < j < |records[b].log0| + |records[b].events| && j < |log| && log[i].Sent? && log[j].Sent?
    requires forall k :: i <= k < j && log[k].Sent? ==> Harmless(log[k])
    ensures log[j].sid == log[i].sid
  {
    var log0 := StretchIsThrifty(log, vs, calls, records, a, b);
    SameSession(log0, log, |records[a].log0|, i, j);
  }

  lemma SameSession(log0: seq<Event>, log: seq<Event>, from: nat, i: nat, j: nat)
    requires log0 <= log && Disciplined(log) && Thrifty(log0, from)
    requires from <= i < j < |log0| && log[i].Sent? && log[j].Sent?
    requires forall k :: i <= k < j && log[k].Sent? ==> Harmless(log[k])
    ensures log[j].sid == log[i].sid
  {
    DisciplinedPrefix(log, |log0|);
    assert log[..|log0|] == log0;
    SoundSessionIsKept(log0, from, i, j);
  }

  // ---------- the counters of a run ----------

  function NextCall(c: Counters, r: Record): Counters {
    Counters(if AtOnce(r) then 0 else if FirstTryFailed(r) then c.first + 1 else c.first,
             if Reached(r) then 0 else if Failed(r) then c.final + 1 else c.final,
             if TriedAgain(r) then c.retries + 1 else c.retries,
             if Recovered(r) then c.recovered + 1 else c.recovered,
             if AtOnce(r) then false else if FirstTryFailed(r) then true else c.degraded)
  }

  /** The counters after further verdicts. */
  function Steps(c: Counters, h: seq<Verdict>): Counters {
    if h == [] then c else Next(Steps(c, Front(h)), Last(h))
  }

  lemma {:induction false} CountersInSteps(vs: seq<Verdict>, h: seq<Verdict>)
    ensures CountersOf(vs + h) == Steps(CountersOf(vs), h)
    decreases |h|
  {
    if h == [] {
      assert vs + h == vs;
    } else {
      CountersInSteps(vs, Front(h));
      assert Front(vs + h) == vs + Front(h) && Last(vs + h) == Last(h);
    }
  }

  /** What is recorded for a call, as far as the counters are concerned. */
  predicate Shape(h: seq<Verdict>) {
    && 1 <= |h| <= 4
    && Last(h).Finished?
    && (|h| >= 2 ==> h[0].Attempted? && h[0].number == 1)
    && (|h| >= 3 ==> h[1].Retried?)
    && (|h| == 4 ==> h[2].Attempted? && h[2].number == 2)
    && (FirstSuccess(Last(h)) ==> !FirstFailure(h[0]))
  }

  lemma RecordedShape(fc: byte, ts: seq<Event>, h: seq<Verdict>, over: bool, r: Result<(), Err>)
    requires Recorded(fc, ts, h, over, r)
    ensures Shape(h)
  {
    if |h| >= 2 { JudgedByEvent(fc, ts[0], h[0].failure, over); }
  }

  /** Everything before the end of a call is an attempt or a retry. */
  lemma StepsBeforeTheEnd(c: Counters, h: seq<Verdict>)
    requires Shape(h)
    ensures Steps(c, Front(h)) == c.(first := if FirstFailure(h[0]) then c.first + 1 else c.first,
                                     degraded := c.degraded || FirstFailure(h[0]),
                                     retries := if |h| > 1 && h[1].Retried? then c.retries + 1 else c.retries)
  {
    if |h| >= 2 { assert Front(h)[..1] == [h[0]] && Front([h[0]]) == [] && Steps(c, [h[0]]) == Next(c, h[0]); }
    if |h| >= 3 { assert Front(h[..2]) == [h[0]]; }
    if |h| == 3 { assert Front(h) == h[..2]; }
    if |h| == 4 { assert Front(Front(h)) == h[..2]; }
  }

  lemma CallMovesCounters(c: Counters, r: Record)
    requires r.h == [] || Shape(r.h)
    ensures Steps(c, r.h) == NextCall(c, r)
  {
    if r.h != [] { StepsBeforeTheEnd(c, r.h); }
  }

  function Count(records: seq<Record>, counted: Record -> bool): nat {
    if records == [] then 0 else Count(Front(records), counted) + if counted(Last(records)) then 1 else 0
  }

  /** The counters after some calls. */
  function CallCounters(records: seq<Record>): Counters {
    if records == [] then Zero else NextCall(CallCounters(Front(records)), Last(records))
  }

  lemma {:induction false} CountersFoldCalls(log: seq<Event>, vs: seq<Verdict>, calls: seq<Call>, records: seq<Record>)
    requires RunOk(log, vs, calls, records)
    ensures CountersOf(vs) == CallCounters(records)
    decreases |records|
  {
    if records != [] {
      var r := Last(records);
      CountersFoldCalls(r.log0, r.vs0, Front(calls), Front(records));
      RecordOfACall(log, Last(calls), r);
      LastCallMovesCounters(vs, r.vs0, r);
    }
  }

  lemma {:induction false} RecoveryIsARetry(log: seq<Event>, vs: seq<Verdict>, calls: seq<Call>, records: seq<Record>, i: nat)
    requires RunOk(log, vs, calls, records) && i < |records|
    ensures Recovered(records[i]) ==> TriedAgain(records[i])
    decreases |records|
  {
    var r := Last(records);
    if i < |records| - 1 {
      RecoveryIsARetry(r.log0, r.vs0, Front(calls), Front(records), i);
    } else {
      RecordOfACall(log, Last(calls), r);
    }
  }

  lemma LastCallMovesCounters(vs: seq<Verdict>, vs0: seq<Verdict>, r: Record)
    requires (r.h == [] || Shape(r.h)) && vs == vs0 + r.h
    ensures CountersOf(vs) == NextCall(CountersOf(vs0), r)
  {
    CountersInSteps(vs0, r.h);
    CallMovesCounters(CountersOf(vs0), r);
  }

  lemma RecordOfACall(log: seq<Event>, call: Call, r: Record)
    requires CallKept(log, call, r)
    ensures r.h == [] || Shape(r.h)
    ensures Recovered(r) ==> TriedAgain(r)
  {
    if call.DoExecute? {
      CallMeaning(call.req, r);
      if r.h != [] { RecordedShape(call.req.fc, Tries(r.events), r.h, r.over, r.result); }
    }
  }

  lemma {:induction false} FoldIsCount(records: seq<Record>, k: nat)
    requires k <= |records| && forall i :: 0 <= i < |records| && Recovered(records[i]) ==> TriedAgain(records[i])
    ensures (k == 0 || AtOnce(records[k - 1])) && (forall i :: k <= i < |records| ==> !AtOnce(records[i])) ==>
              CallCounters(records).first == Count(records[k..], FirstTryFailed)
    ensures (k == 0 || Reached(records[k - 1])) && (forall i :: k <= i < |records| ==> !Reached(records[i])) ==>
              CallCounters(records).final == Count(records[k..], Failed)
    ensures CallCounters(records).retries == Count(records, TriedAgain) && CallCounters(records).recovered == Count(records, Recovered)
    ensures CallCounters(records).recovered <= CallCounters(records).retries
    ensures CallCounters(records).degraded <==> CallCounters(records).first > 0
    decreases |records|
  {
    if records != [] {
      var front := Front(records);
      FoldIsCount(front, if k < |records| then k else 0);
      if k < |records| { assert Front(records[k..]) == front[k..] && Last(records[k..]) == Last(records); }
    }
  }

  /** The counters are counts of calls.  The two streaks count the calls since the last one that ends
      the streak (k is the position right after it, or 0 if there is none): first attempts that
      failed in transport since the last success on a first attempt, and calls that ended in a
      transport failure since the last success or genuine exception.  The totals count over
      everything, no more calls recover than retry, and degraded means that the first streak is not
      empty.  CallMeaning says what is counted in terms of attempts and results. */
  lemma CountersCountCalls(log: seq<Event>, vs: seq<Verdict>, calls: seq<Call>, records: seq<Record>, k: nat)
    requires RunOk(log, vs, calls, records) && k <= |records|
    ensures (k == 0 || AtOnce(records[k - 1])) && (forall i :: k <= i < |records| ==> !AtOnce(records[i])) ==>
              CountersOf(vs).first == Count(records[k..], FirstTryFailed)
    ensures (k == 0 || Reached(records[k - 1])) && (forall i :: k <= i < |records| ==> !Reached(records[i])) ==>
              CountersOf(vs).final == Count(records[k..], Failed)
    ensures CountersOf(vs).retries == Count(records, TriedAgain) && CountersOf(vs).recovered == Count(records, Recovered)
    ensures CountersOf(vs).recovered <= CountersOf(vs).retries
    ensures CountersOf(vs).degraded <==> CountersOf(vs).first > 0
  {
    CountersFoldCalls(log, vs, calls, records);
    forall i | 0 <= i < |records| ensures Recovered(records[i]) ==> TriedAgain(records[i]) {
      RecoveryIsARetry(log, vs, calls, records, i);
    }
    FoldIsCount(records, k);
  }
}
