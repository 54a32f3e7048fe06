/**
 Request coalescing (`CoalesceWithStatus`): any number of callers, any number of keys.

 The steps are the stretches of the original between two points where another goroutine can
 interfere: a look at the caller's own context, the critical section under `inflightMu`, a
 wake-up through `done`, the three separate effects of a leader that is finishing (fields
 written, entry deleted, channel closed).  Fetched buffers are only ever copied, so a number
 names their contents.
 */
module Coalescing {
  import opened Wrappers

  /** What matters about an error here: a context error makes a follower try again, a genuine
      device exception forbids the stale fallback, the rest is passed on. */
  datatype Failure = ContextFailure | ProtocolFailure | OtherFailure

  datatype Outcome = Value(data: nat) | Error(failure: Failure)

  datatype Phase =
    | AtCheck                            // top of the loop
    | AtLock                             // context was live, about to take inflightMu
    | Waiting(rid: nat)                  // follower, blocked on the request's done channel
    | Awake(rid: nat)                    // follower, done was closed
    | Fetching(rid: nat)                 // leader, its fetch is running
    | Recording(rid: nat, out: Outcome)  // leader, about to write result and err
    | Removing(rid: nat, out: Outcome)   // leader, about to delete the map entry
    | Closing(rid: nat, out: Outcome)    // leader, about to close done
    | Returned(out: Outcome, coalesced: bool)

  /** `joined`, `led`, `fetched`, `late` and `turns` are history: the requests waited for, the request
      led, what the caller's own fetch returned, whether the caller's context was over by then, and
      the number of steps taken. */
  datatype Caller = Caller(key: string, phase: Phase, cancelled: bool,
                           joined: seq<nat>, led: Option<nat>, fetches: nat, fetched: Option<Outcome>, late: bool, turns: nat)

  datatype Request = Request(key: string, leader: nat, result: Option<Outcome>, done: bool)

  datatype State = State(inflight: map<string, nat>, reqs: map<nat, Request>, callers: map<nat, Caller>)

  datatype Step =
    | Arrive(p: nat, key: string)
    | Cancel(p: nat)
    | Check(p: nat)
    | Lock(p: nat, unused: nat)
    | GiveUp(p: nat)
    | Wake(p: nat)
    | Read(p: nat)
    | FetchReturn(p: nat, raw: Outcome)
    | Record(p: nat)
    | Remove(p: nat)
    | Close(p: nat)

  const Start := State(map[], map[], map[])

  /** Steps a caller takes itself, as opposed to its arrival and the end of its context. */
  predicate OwnStep(step: Step) { !step.Arrive? && !step.Cancel? }

  predicate Enabled(s: State, step: Step) {
    if step.Arrive? then step.p !in s.callers else
    && step.p in s.callers
    && var c := s.callers[step.p];
       match step
       case Cancel(_) => !c.cancelled
       case Check(_) => c.phase.AtCheck?
       case Lock(_, unused) => c.phase.AtLock? && unused !in s.reqs
       case GiveUp(_) => c.phase.Waiting? && c.cancelled
       case Wake(_) => c.phase.Waiting? && c.phase.rid in s.reqs && s.reqs[c.phase.rid].done
       case Read(_) => c.phase.Awake? && c.phase.rid in s.reqs && s.reqs[c.phase.rid].result.Some?
       case FetchReturn(_, _) => c.phase.Fetching?
       case Record(_) => c.phase.Recording? && c.phase.rid in s.reqs
       case Remove(_) => c.phase.Removing?
       case Close(_) => c.phase.Closing? && c.phase.rid in s.reqs
  }

  function SetCaller(s: State, p: nat, c: Caller): State { s.(callers := s.callers[p := c]) }

  /** What a follower does with a finished request: its own context first, then the shared error;
      a context error of the leader sends a live follower back to the top. */
  function AfterRead(c: Caller, shared: Outcome): Phase {
    if c.cancelled then Returned(Error(ContextFailure), true)
    else if shared == Error(ContextFailure) then AtCheck
    else Returned(shared, true)
  }

  function After(s: State, step: Step): State
    requires Enabled(s, step)
  {
    if step.Arrive? then SetCaller(s, step.p, Caller(step.key, AtCheck, false, [], None, 0, None, false, 0)) else
    var p, c0 := step.p, s.callers[step.p];
    if step.Cancel? then SetCaller(s, p, c0.(cancelled := true)) else
    var c := c0.(turns := c0.turns + 1);
    match step
    case Check(_) =>
      SetCaller(s, p, c.(phase := if c.cancelled then Returned(Error(ContextFailure), false) else AtLock))
    case Lock(_, unused) =>
      if c.key in s.inflight then
        var rid := s.inflight[c.key];
        SetCaller(s, p, c.(phase := Waiting(rid), joined := c.joined + [rid]))
      else
        var t := SetCaller(s, p, c.(phase := Fetching(unused), led := Some(unused), fetches := c.fetches + 1));
        t.(inflight := s.inflight[c.key := unused], reqs := s.reqs[unused := Request(c.key, p, None, false)])
    case GiveUp(_) => SetCaller(s, p, c.(phase := Returned(Error(ContextFailure), true)))
    case Wake(_) => SetCaller(s, p, c.(phase := Awake(c.phase.rid)))
    case Read(_) => SetCaller(s, p, c.(phase := AfterRead(c, s.reqs[c.phase.rid].result.value)))
    case FetchReturn(_, raw) =>
      var out := if raw.Value? && c.cancelled then Error(ContextFailure) else raw;
      SetCaller(s, p, c.(phase := Recording(c.phase.rid, out), fetched := Some(raw), late := c.cancelled))
    case Record(_) =>
      var rid := c.phase.rid;
      SetCaller(s, p, c.(phase := Removing(rid, c.phase.out)))
        .(reqs := s.reqs[rid := s.reqs[rid].(result := Some(c.phase.out))])
    case Remove(_) =>
      SetCaller(s, p, c.(phase := Closing(c.phase.rid, c.phase.out))).(inflight := s.inflight - {c.key})
    case Close(_) =>
      var rid := c.phase.rid;
      SetCaller(s, p, c.(phase := Returned(c.phase.out, false))).(reqs := s.reqs[rid := s.reqs[rid].(done := true)])
  }

  /** Running the steps one after the other leads from s to t. */
  ghost predicate Reaches(s: State, steps: seq<Step>, t: State)
    decreases |steps|
  {
    if steps == [] then s == t
    else Enabled(s, steps[0]) && Reaches(After(s, steps[0]), steps[1..], t)
  }

  // ---------- invariant ----------

  predicate Leading(ph: Phase) { ph.Fetching? || ph.Recording? || ph.Removing? || ph.Closing? }

  /** The bookkeeping of one caller that does not depend on the other callers. */
  ghost predicate HistoryOk(c: Caller) {
    var j := 4 * |c.joined|;
    && c.fetches == (if c.led.Some? then 1 else 0)
    && (c.fetched.Some? ==> c.led.Some?)
    && (forall i, k :: 0 <= i < k < |c.joined| ==> c.joined[i] != c.joined[k])
    && match c.phase
       case AtCheck => c.led.None? && c.turns == j
       case AtLock => c.led.None? && c.turns == j + 1
       case Waiting(rid) => c.led.None? && c.joined != [] && c.joined[|c.joined| - 1] == rid && c.turns == j - 2
       case Awake(rid) => c.led.None? && c.joined != [] && c.joined[|c.joined| - 1] == rid && c.turns == j - 1
       case Fetching(rid) => c.led == Some(rid) && c.fetched.None? && c.turns == j + 2
       case Recording(rid, out) => c.led == Some(rid) && c.turns == j + 3 && LeaderOutcome(c, out)
       case Removing(rid, out) => c.led == Some(rid) && c.turns == j + 4 && LeaderOutcome(c, out)
       case Closing(rid, out) => c.led == Some(rid) && c.turns == j + 5 && LeaderOutcome(c, out)
       case Returned(out, coalesced) =>
         && c.turns <= j + 6
         && (coalesced ==> c.led.None? && c.joined != [])
         && (out == Error(ContextFailure) ==> c.cancelled || c.fetched == Some(Error(ContextFailure)))
         && (!coalesced && c.led.None? ==> out == Error(ContextFailure))
         && (!coalesced && c.led.Some? ==> LeaderOutcome(c, out))
  }

  /** A leader publishes what its fetch returned, except that a value fetched for a context that
      has ended by then is published as that context's error. */
  predicate LeaderOutcome(c: Caller, out: Outcome) {
    && c.fetched.Some?
    && (c.late ==> c.cancelled)
    && out == if c.fetched.value.Value? && c.late then Error(ContextFailure) else c.fetched.value
  }

  /** The caller's i-th round as a follower is over: it has gone on from that request. */
  predicate LeftRound(c: Caller, i: nat) {
    i < |c.joined| - 1 || !(c.phase.Waiting? || c.phase.Awake? || (c.phase.Returned? && c.phase.coalesced))
  }

  ghost predicate CallerOk(s: State, p: nat)
    requires p in s.callers
  {
    var c := s.callers[p];
    && HistoryOk(c)
    && (forall i :: 0 <= i < |c.joined| ==>
          && c.joined[i] in s.reqs
          && s.reqs[c.joined[i]].key == c.key
          && s.reqs[c.joined[i]].leader != p
          && (s.reqs[c.joined[i]].done || (c.phase.Waiting? && i == |c.joined| - 1) || c.phase.Returned?)
          && (LeftRound(c, i) ==> s.reqs[c.joined[i]].result == Some(Error(ContextFailure))))
    && (c.led.Some? ==> c.led.value in s.reqs && s.reqs[c.led.value].leader == p && s.reqs[c.led.value].key == c.key)
    && (Leading(c.phase) ==> !s.reqs[c.phase.rid].done)
    && (Leading(c.phase) && !c.phase.Closing? ==> c.key in s.inflight && s.inflight[c.key] == c.phase.rid)
    && (c.phase.Fetching? || c.phase.Recording? ==> s.reqs[c.phase.rid].result.None?)
    && (c.phase.Removing? || c.phase.Closing? ==> s.reqs[c.phase.rid].result == Some(c.phase.out))
    && (c.phase.Returned? && c.phase.coalesced && c.phase.out != Error(ContextFailure) ==>
          && s.reqs[c.joined[|c.joined| - 1]].done
          && s.reqs[c.joined[|c.joined| - 1]].result == Some(c.phase.out))
  }

  ghost predicate RequestOk(s: State, rid: nat)
    requires rid in s.reqs
  {
    var r := s.reqs[rid];
    && r.leader in s.callers
    && s.callers[r.leader].led == Some(rid)
    && s.callers[r.leader].key == r.key
    && (r.done ==> r.result.Some?)
    && (r.result.Some? ==> LeaderOutcome(s.callers[r.leader], r.result.value))
    && (!r.done ==> Leading(s.callers[r.leader].phase))
  }

  ghost predicate EntryOk(s: State, k: string)
    requires k in s.inflight
  {
    var rid := s.inflight[k];
    && rid in s.reqs
    && s.reqs[rid].key == k
    && !s.reqs[rid].done
    && s.reqs[rid].leader in s.callers
    && Leading(s.callers[s.reqs[rid].leader].phase)
    && !s.callers[s.reqs[rid].leader].phase.Closing?
  }

  ghost predicate Inv(s: State) {
    && (forall p :: p in s.callers ==> CallerOk(s, p))
    && (forall rid :: rid in s.reqs ==> RequestOk(s, rid))
    && (forall k :: k in s.inflight ==> EntryOk(s, k))
  }

  /** The parts of the invariant about the caller that moves. */
  ghost predicate MoverOk(s: State, step: Step) {
    step.p in s.callers ==>
      && CallerOk(s, step.p)
      && (s.callers[step.p].key in s.inflight ==> EntryOk(s, s.callers[step.p].key))
  }

  lemma MoverKept(s: State, step: Step)
    requires Enabled(s, step) && MoverOk(s, step)
    ensures CallerOk(After(s, step), step.p)
  {
    match step
    case Arrive(_, _) =>
    case Lock(_, _) => if s.callers[step.p].key in s.inflight { JoinKept(s, step); }
    case Cancel(_) =>
    case Check(_) =>
    case _ => LeaderAndFollowerKept(s, step);
  }

  lemma JoinKept(s: State, step: Step)
    requires Enabled(s, step) && MoverOk(s, step) && step.Lock? && s.callers[step.p].key in s.inflight
    ensures CallerOk(After(s, step), step.p)
  {
    var c, d := s.callers[step.p], After(s, step).callers[step.p];
    assert d.joined[..|c.joined|] == c.joined;
    assert HistoryOk(d);
  }

  lemma LeaderAndFollowerKept(s: State, step: Step)
    requires Enabled(s, step) && MoverOk(s, step)
    requires !step.Arrive? && !step.Cancel? && !step.Check? && !step.Lock?
    ensures CallerOk(After(s, step), step.p)
  {
    var d := After(s, step).callers[step.p];
    assert d.joined == s.callers[step.p].joined;
    assert HistoryOk(d);
  }

  lemma BystanderKept(s: State, step: Step, p: nat)
    requires Enabled(s, step) && MoverOk(s, step)
    requires p in s.callers && p != step.p && CallerOk(s, p)
    ensures CallerOk(After(s, step), p)
  {
    var t := After(s, step);
    assert t.callers[p] == s.callers[p];
    if step.Lock? {
      BystanderOfLockKept(s, step, p);
    } else if step.Record? || step.Remove? || step.Close? {
      BystanderOfLeaderKept(s, step, p);
    } else {
      assert t.reqs == s.reqs && t.inflight == s.inflight;
    }
  }

  lemma BystanderOfLockKept(s: State, step: Step, p: nat)
    requires Enabled(s, step) && MoverOk(s, step) && step.Lock?
    requires p in s.callers && p != step.p && CallerOk(s, p)
    ensures CallerOk(After(s, step), p)
  {
    assert After(s, step).callers[p] == s.callers[p];
  }

  lemma BystanderOfLeaderKept(s: State, step: Step, p: nat)
    requires Enabled(s, step) && MoverOk(s, step) && (step.Record? || step.Remove? || step.Close?)
    requires p in s.callers && p != step.p && CallerOk(s, p)
    ensures CallerOk(After(s, step), p)
  {
    assert After(s, step).callers[p] == s.callers[p];
  }

  lemma RequestKept(s: State, step: Step, rid: nat)
    requires Enabled(s, step) && MoverOk(s, step)
    requires rid in After(s, step).reqs && (rid in s.reqs ==> RequestOk(s, rid))
    ensures RequestOk(After(s, step), rid)
  {
    match step
    case Arrive(_, _) =>
    case Cancel(_) =>
    case Lock(_, _) =>
    case FetchReturn(_, _) =>
    case Record(_) =>
    case Close(_) =>
    case _ =>
  }

  lemma EntryKept(s: State, step: Step, k: string)
    requires Enabled(s, step) && MoverOk(s, step)
    requires k in After(s, step).inflight && (k in s.inflight ==> EntryOk(s, k) && RequestOk(s, s.inflight[k]))
    ensures EntryOk(After(s, step), k)
  {
  }

  lemma StepKeepsInv(s: State, step: Step)
    requires Inv(s) && Enabled(s, step)
    ensures Inv(After(s, step))
  {
    var t := After(s, step);
    forall p | p in t.callers ensures CallerOk(t, p) {
      if p == step.p { MoverKept(s, step); } else { BystanderKept(s, step, p); }
    }
    forall rid | rid in t.reqs ensures RequestOk(t, rid) { RequestKept(s, step, rid); }
    forall k | k in t.inflight ensures EntryOk(t, k) { EntryKept(s, step, k); }
  }

  lemma {:induction false} RunKeepsInv(s: State, steps: seq<Step>, t: State)
    requires Inv(s) && Reaches(s, steps, t)
    ensures Inv(t)
    decreases |steps|
  {
    if steps != [] {
      StepKeepsInv(s, steps[0]);
      RunKeepsInv(After(s, steps[0]), steps[1..], t);
    }
  }

  lemma ReachableCaller(steps: seq<Step>, t: State, p: nat)
    requires Reaches(Start, steps, t) && p in t.callers
    ensures CallerOk(t, p)
  {
    RunKeepsInv(Start, steps, t);
  }

  lemma ReachableRequest(steps: seq<Step>, t: State, rid: nat)
    requires Reaches(Start, steps, t) && rid in t.reqs
    ensures RequestOk(t, rid)
  {
    RunKeepsInv(Start, steps, t);
  }

  // ---------- safety ----------

  /** In every reachable state at most one fetch per key is running, and the map entry for the
      key is that caller's own request. */
  lemma OneFetchPerKey(steps: seq<Step>, t: State, p: nat, q: nat)
    requires Reaches(Start, steps, t) && p in t.callers && q in t.callers
    requires t.callers[p].phase.Fetching? && t.callers[q].phase.Fetching? && t.callers[p].key == t.callers[q].key
    ensures p == q
    ensures t.callers[p].key in t.inflight && t.inflight[t.callers[p].key] in t.reqs
    ensures t.reqs[t.inflight[t.callers[p].key]].leader == p
  {
    ReachableCaller(steps, t, p);
    ReachableCaller(steps, t, q);
    SameKeySameLeader(t, p, q);
  }

  lemma SameKeySameLeader(t: State, p: nat, q: nat)
    requires p in t.callers && q in t.callers && CallerOk(t, p) && CallerOk(t, q)
    requires t.callers[p].phase.Fetching? && t.callers[q].phase.Fetching? && t.callers[p].key == t.callers[q].key
    ensures p == q
  {
  }

  /** What was returned was fetched, by the caller itself or by another caller of its key; or it is
      the error of the caller's own context. */
  lemma ReturnedWasFetched(t: State, p: nat) returns (q: nat)
    requires Inv(t) && p in t.callers && t.callers[p].phase.Returned?
    ensures (t.callers[p].phase.out == Error(ContextFailure) && t.callers[p].cancelled)
            || (q in t.callers && t.callers[q].key == t.callers[p].key && t.callers[q].fetched == Some(t.callers[p].phase.out))
  {
    assert CallerOk(t, p);
    var c := t.callers[p];
    q := p;
    if c.phase.coalesced && c.phase.out != Error(ContextFailure) {
      var rid := c.joined[|c.joined| - 1];
      assert rid in t.reqs && t.reqs[rid].result == Some(c.phase.out) && t.reqs[rid].key == c.key;
      assert RequestOk(t, rid);
      q := t.reqs[rid].leader;
    }
  }

  /** What a caller that has returned can rely on: it fetched at most once; if it is reported as
      coalesced it never fetched, and it got exactly what another caller's fetch for the same key
      returned; a value it fetched itself comes back unchanged; and a context error is its own. */
  lemma ReturnedCaller(steps: seq<Step>, t: State, p: nat)
    requires Reaches(Start, steps, t) && p in t.callers && t.callers[p].phase.Returned?
    ensures t.callers[p].fetches <= 1
    ensures t.callers[p].phase.coalesced ==>
              && t.callers[p].fetches == 0
              && (t.callers[p].phase.out != Error(ContextFailure) ==> SharedFromLeader(t, p))
    ensures !t.callers[p].phase.coalesced && t.callers[p].phase.out != Error(ContextFailure) ==>
              t.callers[p].fetched == Some(t.callers[p].phase.out)
    ensures t.callers[p].phase.out == Error(ContextFailure) ==>
              t.callers[p].cancelled || t.callers[p].fetched == Some(Error(ContextFailure))
  {
    ReachableCaller(steps, t, p);
    var c := t.callers[p];
    if c.phase.coalesced && c.phase.out != Error(ContextFailure) {
      var rid := c.joined[|c.joined| - 1];
      assert rid in t.reqs && t.reqs[rid].leader != p;
      ReachableRequest(steps, t, rid);
    }
  }

  /** Sharing happens: a caller fetches for itself only if every request it waited for ended in its
      leader's context error. */
  lemma FetchesOnlyIfNothingToShare(steps: seq<Step>, t: State, p: nat)
    requires Reaches(Start, steps, t) && p in t.callers && t.callers[p].fetches > 0
    ensures forall i :: 0 <= i < |t.callers[p].joined| ==>
              t.callers[p].joined[i] in t.reqs && t.reqs[t.callers[p].joined[i]].result == Some(Error(ContextFailure))
  {
    ReachableCaller(steps, t, p);
    forall i | 0 <= i < |t.callers[p].joined| ensures LeftRound(t.callers[p], i) {
    }
  }

  /** Once the request a caller has joined last has a result other than its leader's context error, the
      caller still has that result to come, or has returned exactly it as coalesced, or was given up
      on by its own context: it does not go round again. */
  lemma JoinedRequestDecides(steps: seq<Step>, t: State, p: nat, rid: nat, out: Outcome)
    requires Reaches(Start, steps, t) && p in t.callers && t.callers[p].joined != []
    requires rid == t.callers[p].joined[|t.callers[p].joined| - 1] && rid in t.reqs
    requires t.reqs[rid].result == Some(out) && out != Error(ContextFailure)
    ensures t.callers[p].fetches == 0
    ensures match t.callers[p].phase
            case Waiting(r) => r == rid
            case Awake(r) => r == rid
            case Returned(o, coalesced) => coalesced && (o == out || (o == Error(ContextFailure) && t.callers[p].cancelled))
            case _ => false
  {
    ReachableCaller(steps, t, p);
    var c, last := t.callers[p], |t.callers[p].joined| - 1;
    assert !LeftRound(c, last);
  }

  /** A live follower that reads such a request returns its result. */
  lemma LiveFollowerShares(steps: seq<Step>, t: State, p: nat)
    requires Reaches(Start, steps, t) && Enabled(t, Read(p)) && !t.callers[p].cancelled
    ensures var rid := t.callers[p].phase.rid;
      t.reqs[rid].result != Some(Error(ContextFailure)) ==>
        After(t, Read(p)).callers[p].phase == Returned(t.reqs[rid].result.value, true)
  {
    ReachableCaller(steps, t, p);
  }

  /** A caller whose context is over and that is not fetching has nothing to come but that error. */
  predicate Doomed(c: Caller) {
    c.cancelled && (c.phase.AtCheck? || c.phase.Waiting? || c.phase.Awake? || (c.phase.Returned? && c.phase.out == Error(ContextFailure)))
  }

  /** Such a caller joins no request and starts no fetch any more. */
  lemma {:induction false} CancelledCallerOnlyReturns(s: State, steps: seq<Step>, t: State, p: nat)
    requires Reaches(s, steps, t) && p in s.callers && Doomed(s.callers[p])
    ensures p in t.callers && Doomed(t.callers[p])
    ensures t.callers[p].fetches == s.callers[p].fetches && t.callers[p].joined == s.callers[p].joined
    decreases |steps|
  {
    if steps != [] {
      DoomedStep(s, steps[0], p);
      CancelledCallerOnlyReturns(After(s, steps[0]), steps[1..], t, p);
    }
  }

  lemma DoomedStep(s: State, step: Step, p: nat)
    requires Enabled(s, step) && p in s.callers && Doomed(s.callers[p])
    ensures var t := After(s, step);
      p in t.callers && Doomed(t.callers[p]) && t.callers[p].fetches == s.callers[p].fetches && t.callers[p].joined == s.callers[p].joined
  {
  }

  /** No value is on its way out to the caller. */
  predicate NoValue(ph: Phase) {
    match ph
    case Recording(_, out) => !out.Value?
    case Removing(_, out) => !out.Value?
    case Closing(_, out) => !out.Value?
    case Returned(out, _) => !out.Value?
    case _ => true
  }

  ghost predicate Useless(s: State, p: nat) { p in s.callers && s.callers[p].cancelled && NoValue(s.callers[p].phase) }

  lemma UselessStep(s: State, step: Step, p: nat)
    requires Enabled(s, step) && Useless(s, p)
    ensures Useless(After(s, step), p)
  {
  }

  /** A caller whose context ends before a value is on its way never returns one, not even one its
      own fetch brings back later. */
  lemma {:induction false} CancelledCallerGetsNoValue(s: State, steps: seq<Step>, t: State, p: nat)
    requires Reaches(s, steps, t) && Useless(s, p)
    ensures Useless(t, p)
    decreases |steps|
  {
    if steps != [] {
      UselessStep(s, steps[0], p);
      CancelledCallerGetsNoValue(After(s, steps[0]), steps[1..], t, p);
    }
  }

  /** A caller that has returned stays as it returned. */
  lemma ReturnedStays(s: State, step: Step, p: nat)
    requires Enabled(s, step) && p in s.callers && s.callers[p].phase.Returned?
    ensures p in After(s, step).callers && After(s, step).callers[p].phase == s.callers[p].phase
  {
  }

  /** A leader whose context was over when its fetch came back returns and publishes no value. */
  lemma LateLeaderPublishesNoValue(steps: seq<Step>, t: State, rid: nat)
    requires Reaches(Start, steps, t) && rid in t.reqs && t.reqs[rid].result.Some?
    ensures t.reqs[rid].leader in t.callers && t.callers[t.reqs[rid].leader].fetched.Some?
    ensures var c := t.callers[t.reqs[rid].leader];
      t.reqs[rid].result.value == if c.fetched.value.Value? && c.late then Error(ContextFailure) else c.fetched.value
  {
    ReachableRequest(steps, t, rid);
  }

  ghost predicate SharedFromLeader(t: State, p: nat)
    requires p in t.callers && t.callers[p].phase.Returned?
  {
    exists q :: q in t.callers && q != p && t.callers[q].key == t.callers[p].key
                && t.callers[q].fetched == Some(t.callers[p].phase.out)
  }

  lemma FinishedStep(s: State, step: Step, rid: nat)
    requires Enabled(s, step) && MoverOk(s, step) && rid in s.reqs && s.reqs[rid].done
    ensures rid in After(s, step).reqs && After(s, step).reqs[rid] == s.reqs[rid]
  {
  }

  /** Followers read the fields of a finished request: from the moment `done` is closed they are
      set, and nothing that can happen afterwards changes them. */
  lemma {:induction false} FinishedRequestIsFinal(s: State, steps: seq<Step>, t: State, rid: nat)
    requires Inv(s) && Reaches(s, steps, t) && rid in s.reqs && s.reqs[rid].done
    ensures s.reqs[rid].result.Some?
    ensures rid in t.reqs && t.reqs[rid] == s.reqs[rid]
    decreases |steps|
  {
    assert RequestOk(s, rid);
    if steps != [] {
      assert MoverOk(s, steps[0]);
      FinishedStep(s, steps[0], rid);
      StepKeepsInv(s, steps[0]);
      FinishedRequestIsFinal(After(s, steps[0]), steps[1..], t, rid);
    }
  }

  // ---------- progress ----------

  /** The callers that ever asked for key k. */
  ghost function Peers(t: State, k: string): set<nat> { set p | p in t.callers && t.callers[p].key == k }

  ghost function Leaders(t: State, rids: seq<nat>): set<nat>
    requires forall i :: 0 <= i < |rids| ==> rids[i] in t.reqs
  {
    set i | 0 <= i < |rids| :: t.reqs[rids[i]].leader
  }

  /** Distinct requests have distinct leaders. */
  lemma {:induction false} LeadersAreDistinct(steps: seq<Step>, t: State, rids: seq<nat>)
    requires Reaches(Start, steps, t)
    requires forall i :: 0 <= i < |rids| ==> rids[i] in t.reqs
    requires forall i, k :: 0 <= i < k < |rids| ==> rids[i] != rids[k]
    ensures |Leaders(t, rids)| == |rids|
    decreases |rids|
  {
    if rids != [] {
      var n := |rids| - 1;
      var init, last := rids[..n], t.reqs[rids[n]].leader;
      LeadersAreDistinct(steps, t, init);
      ReachableRequest(steps, t, rids[n]);
      forall i | 0 <= i < n ensures t.reqs[init[i]].leader != last {
        ReachableRequest(steps, t, rids[i]);
      }
      assert Leaders(t, rids) == Leaders(t, init) + {last};
    }
  }

  lemma SubsetSize(a: set<nat>, b: set<nat>)
    requires a <= b
    ensures |a| <= |b|
  {
    if a != {} {
      var x :| x in a;
      SubsetSize(a - {x}, b - {x});
    }
  }

  /** With N callers on its key, a caller goes through at most N rounds, as a follower or as a
      leader, and takes at most 4N + 2 steps: a finished request is never joined again, so every
      round beyond the first is charged to another caller's finished fetch. */
  lemma RoundsAreBounded(steps: seq<Step>, t: State, p: nat)
    requires Reaches(Start, steps, t) && p in t.callers
    ensures |t.callers[p].joined| + t.callers[p].fetches <= |Peers(t, t.callers[p].key)|
    ensures t.callers[p].turns <= 4 * |Peers(t, t.callers[p].key)| + 2
  {
    ReachableCaller(steps, t, p);
    var c := t.callers[p];
    LeadersAreDistinct(steps, t, c.joined);
    var leaders := Leaders(t, c.joined);
    LeadersArePeers(steps, t, p);
    assert |leaders + {p}| == |leaders| + 1;
    SubsetSize(leaders + {p}, Peers(t, c.key));
  }

  lemma LeadersArePeers(steps: seq<Step>, t: State, p: nat)
    requires Reaches(Start, steps, t) && p in t.callers && CallerOk(t, p)
    ensures p !in Leaders(t, t.callers[p].joined) && p in Peers(t, t.callers[p].key)
    ensures Leaders(t, t.callers[p].joined) <= Peers(t, t.callers[p].key)
  {
    var c := t.callers[p];
    forall q | q in Leaders(t, c.joined) ensures q in Peers(t, c.key) {
      var i :| 0 <= i < |c.joined| && t.reqs[c.joined[i]].leader == q;
      ReachableRequest(steps, t, c.joined[i]);
    }
  }

  lemma {:induction false} UnusedAbove(used: set<nat>, from: nat) returns (unused: nat)
    ensures unused !in used && unused >= from
    decreases |used|
  {
    if from in used {
      unused := UnusedAbove(used - {from}, from + 1);
    } else {
      unused := from;
    }
  }

  lemma LeaderCanMove(t: State, q: nat) returns (step: Step)
    requires q in t.callers && CallerOk(t, q) && Leading(t.callers[q].phase)
    ensures OwnStep(step) && step.p == q && Enabled(t, step)
  {
    match t.callers[q].phase
    case Fetching(_) => step := FetchReturn(q, Error(OtherFailure));
    case Recording(_, _) => step := Record(q);
    case Removing(_, _) => step := Remove(q);
    case Closing(_, _) => step := Close(q);
  }

  /** As long as a caller has not returned, some caller of the same key can move (a running fetch
      counts as able to return). */
  lemma NeverStuck(steps: seq<Step>, t: State, p: nat) returns (step: Step)
    requires Reaches(Start, steps, t) && p in t.callers && !t.callers[p].phase.Returned?
    ensures OwnStep(step) && Enabled(t, step) && step.p in Peers(t, t.callers[p].key)
  {
    ReachableCaller(steps, t, p);
    match t.callers[p].phase
    case AtCheck => step := Check(p);
    case AtLock =>
      var unused := UnusedAbove(t.reqs.Keys, 0);
      step := Lock(p, unused);
    case Waiting(rid) =>
      assert rid == t.callers[p].joined[|t.callers[p].joined| - 1];
      ReachableRequest(steps, t, rid);
      if t.reqs[rid].done {
        step := Wake(p);
      } else {
        ReachableCaller(steps, t, t.reqs[rid].leader);
        step := LeaderCanMove(t, t.reqs[rid].leader);
      }
    case Awake(rid) =>
      assert rid == t.callers[p].joined[|t.callers[p].joined| - 1];
      ReachableRequest(steps, t, rid);
      step := Read(p);
    case _ => step := LeaderCanMove(t, p);
  }

  /** The steps of a run that callers in ps take themselves. */
  function OwnSteps(steps: seq<Step>, ps: set<nat>): nat {
    if steps == [] then 0
    else (if OwnStep(steps[0]) && steps[0].p in ps then 1 else 0) + OwnSteps(steps[1..], ps)
  }

  function TurnsOf(s: State, p: nat): nat { if p in s.callers then s.callers[p].turns else 0 }

  lemma {:induction false} TurnsCountSteps(s: State, steps: seq<Step>, t: State, p: nat)
    requires Reaches(s, steps, t)
    ensures TurnsOf(t, p) == TurnsOf(s, p) + OwnSteps(steps, {p})
    decreases |steps|
  {
    if steps != [] {
      OneTurn(s, steps[0], p);
      TurnsCountSteps(After(s, steps[0]), steps[1..], t, p);
    }
  }

  lemma OneTurn(s: State, step: Step, p: nat)
    requires Enabled(s, step)
    ensures TurnsOf(After(s, step), p) == TurnsOf(s, p) + if OwnStep(step) && step.p == p then 1 else 0
  {
  }

  lemma {:induction false} OneCallerApart(steps: seq<Step>, ps: set<nat>, p: nat)
    requires p in ps
    ensures OwnSteps(steps, ps) == OwnSteps(steps, {p}) + OwnSteps(steps, ps - {p})
    decreases |steps|
  {
    if steps != [] { OneCallerApart(steps[1..], ps, p); }
  }

  lemma {:induction false} StepsOfAll(steps: seq<Step>, ps: set<nat>, bound: nat)
    requires forall p :: p in ps ==> OwnSteps(steps, {p}) <= bound
    ensures OwnSteps(steps, ps) <= |ps| * bound
    decreases |ps|
  {
    if ps == {} {
      NobodySteps(steps);
    } else {
      var p :| p in ps;
      OneCallerApart(steps, ps, p);
      StepsOfAll(steps, ps - {p}, bound);
      assert |ps| * bound == |ps - {p}| * bound + bound;
    }
  }

  lemma {:induction false} NobodySteps(steps: seq<Step>)
    ensures OwnSteps(steps, {}) == 0
  {
    if steps != [] { NobodySteps(steps[1..]); }
  }

  /** Every run comes to an end: however the steps are scheduled, the N callers of a key together take
      at most N * (4N + 2) steps of their own, and where none of them can take another, each has
      returned. */
  lemma EveryRunReturns(steps: seq<Step>, t: State, key: string)
    requires Reaches(Start, steps, t)
    ensures var n := |Peers(t, key)|; OwnSteps(steps, Peers(t, key)) <= n * (4 * n + 2)
    ensures (forall step :: OwnStep(step) && step.p in Peers(t, key) ==> !Enabled(t, step)) ==>
              forall p :: p in Peers(t, key) ==> t.callers[p].phase.Returned?
  {
    var peers := Peers(t, key);
    forall p | p in peers ensures OwnSteps(steps, {p}) <= 4 * |peers| + 2 {
      TurnsCountSteps(Start, steps, t, p);
      RoundsAreBounded(steps, t, p);
    }
    StepsOfAll(steps, peers, 4 * |peers| + 2);
    forall p | p in peers && !t.callers[p].phase.Returned?
      ensures exists step :: OwnStep(step) && step.p in peers && Enabled(t, step)
    {
      var step := NeverStuck(steps, t, p);
    }
  }
}
