/**
 The guarded connection: a connection wrapper bound to one request at a time, which clamps
 deadlines and refuses writes once the request is over, and the watchdog that `BeginRequest`
 starts and its finish function joins.  Writes are made by the request's own goroutine, which
 also calls the finish function: none is under way when the request finishes.
 */
module GuardedConn {
  import opened Wrappers

  /** The past: what a deadline is set to when the request is over (`time.Unix(1, 0)`). */
  const LONG_AGO: int := 1

  /** Deadlines are times; None is the zero time, no deadline. */
  datatype Guard = Guard(bound: Option<nat>, maxDeadline: int, canceled: bool)

  const Unbound := Guard(None, 0, false)

  /** requestErrorLocked reports an error; `ctxOver` is what contextError says of the bound context. */
  predicate Over(g: Guard, ctxOver: bool, now: int) { g.bound.Some? && (g.canceled || ctxOver || now >= g.maxDeadline) }

  function Clamp(g: Guard, ctxOver: bool, now: int, deadline: Option<int>): Option<int> {
    if Over(g, ctxOver, now) then Some(LONG_AGO)
    else if g.bound.Some? && (deadline.None? || deadline.value > g.maxDeadline) then Some(g.maxDeadline)
    else deadline
  }

  // ---------- requests, watchdogs and writes interleaved ----------

  datatype Watchdog = Running | Stopped

  /** `ended`: requests whose context is over; `stopping`: requests whose finish function has begun;
      `inFlight`: writes that passed the check and have not reached the raw connection; `writes`: raw
      writes, each with the request it was checked for and whether that request was over by then. */
  datatype State = State(now: int, guard: Guard, rawDeadline: Option<int>, ended: set<nat>, watchdogs: map<nat, Watchdog>,
                         stopping: set<nat>, inFlight: set<nat>, writes: seq<(nat, bool)>)

  datatype Step =
    | Begin(r: nat, maxDeadline: int)
    | ContextEnds(r: nat)
    | WatchdogFires(r: nat)
    | WatchdogStops(r: nat)
    | SetDeadline(deadline: Option<int>)
    | CheckWrite(w: nat)
    | RawWrite(w: nat)
    | Finish(r: nat)
    | Unbind(r: nat)
    | Tick(delta: nat)

  predicate CtxOver(s: State) { s.guard.bound.Some? && s.guard.bound.value in s.ended }

  /** The bound request is over: cancelled, its context ended, or its deadline reached. */
  predicate RequestOver(s: State) { Over(s.guard, CtxOver(s), s.now) }

  predicate Enabled(s: State, step: Step) {
    match step
    case Begin(r, _) => s.guard.bound.None? && r !in s.watchdogs
    case ContextEnds(r) => r !in s.ended
    case WatchdogFires(r) => r in s.watchdogs && s.watchdogs[r].Running? && r in s.ended
    case WatchdogStops(r) => r in s.watchdogs && s.watchdogs[r].Running? && r in s.stopping
    case SetDeadline(_) => true
    case CheckWrite(w) => s.guard.bound.Some? && w !in s.inFlight && s.guard.bound.value !in s.stopping
    case RawWrite(w) => s.guard.bound.Some? && w in s.inFlight
    case Finish(r) => s.guard.bound == Some(r) && s.inFlight == {}
    case Unbind(r) => s.guard.bound == Some(r) && r in s.stopping && r in s.watchdogs && s.watchdogs[r].Stopped?
    case Tick(_) => true
  }

  function After(s: State, step: Step): State
    requires Enabled(s, step)
  {
    match step
    case Begin(r, max) =>
      var g := Guard(Some(r), max, r in s.ended);
      s.(guard := g, rawDeadline := Clamp(g, r in s.ended, s.now, Some(max)), watchdogs := s.watchdogs[r := Running])
    case ContextEnds(r) => s.(ended := s.ended + {r})
    case WatchdogFires(r) =>
      var t := s.(watchdogs := s.watchdogs[r := Stopped]);
      if s.guard.bound.None? then t else t.(guard := s.guard.(canceled := true), rawDeadline := Some(s.now))
    case WatchdogStops(r) => s.(watchdogs := s.watchdogs[r := Stopped])
    case SetDeadline(deadline) => s.(rawDeadline := Clamp(s.guard, CtxOver(s), s.now, deadline))
    case CheckWrite(w) => if RequestOver(s) then s else s.(inFlight := s.inFlight + {w})
    case RawWrite(w) => s.(inFlight := s.inFlight - {w}, writes := s.writes + [(s.guard.bound.value, RequestOver(s))])
    case Finish(r) => s.(stopping := s.stopping + {r})
    case Unbind(r) => s.(guard := Unbound)
    case Tick(delta) => s.(now := s.now + delta)
  }

  const Start := State(2, Unbound, None, {}, map[], {}, {}, [])

  ghost predicate Reaches(s: State, steps: seq<Step>, t: State)
    decreases |steps|
  {
    if steps == [] then s == t else Enabled(s, steps[0]) && Reaches(After(s, steps[0]), steps[1..], t)
  }

  /** The bound request is marked cancelled and whatever is blocked on the connection is past its deadline. */
  predicate Woken(s: State) { s.guard.canceled && s.rawDeadline.Some? && s.rawDeadline.value <= s.now }

  ghost predicate Inv(s: State) {
    && LONG_AGO < s.now
    && (forall r :: r in s.watchdogs && s.watchdogs[r].Running? ==> s.guard.bound == Some(r))
    && (s.guard.bound.Some? ==> s.guard.bound.value in s.watchdogs)
    && (s.guard.bound.None? ==> s.inFlight == {})
    && (s.guard.bound.Some? && s.guard.bound.value in s.stopping ==> s.inFlight == {})
    && (s.guard.canceled ==> CtxOver(s))
    && (s.guard.bound.Some? && s.watchdogs[s.guard.bound.value].Stopped? && s.guard.bound.value !in s.stopping ==> Woken(s))
    && (s.guard.bound.Some? ==> s.rawDeadline.Some? && s.rawDeadline.value <= (if s.guard.maxDeadline > s.now then s.guard.maxDeadline else s.now))
  }

  lemma StepKeepsInv(s: State, step: Step)
    requires Inv(s) && Enabled(s, step)
    ensures Inv(After(s, step))
  {
  }

  lemma {:induction false} RunKeepsInv(s: State, steps: seq<Step>, t: State)
    requires Inv(s) && Reaches(s, steps, t)
    ensures Inv(t)
    decreases |steps|
  {
    if steps != [] {
      StepKeepsInv(s, steps[0]);
      RunKeepsInv(After(s, steps[0]), steps[1..], t);
    }
  }

  // ---------- the connection object ----------

  /** The wrapper's fields and its methods as written.  `model` is the state of the protocol the object
      stands in; every method moves its fields exactly as the protocol's step does, so that what is
      proved of runs holds of the object. */
  class Conn {
    var guard: Guard
    var rawDeadline: Option<int>
    ghost var model: State

    ghost predicate Valid()
      reads this
    {
      guard == model.guard && rawDeadline == model.rawDeadline && Inv(model)
    }

    constructor ()
      ensures Valid() && model == Start
    {
      guard, rawDeadline, model := Unbound, None, Start;
    }

    /** What happens around the object without touching it: contexts end, time passes, watchdogs are
        stopped, finish functions begin, checked bytes go out. */
    ghost method Meanwhile(step: Step)
      requires Valid() && Enabled(model, step)
      requires step.ContextEnds? || step.Tick? || step.WatchdogStops? || step.Finish? || step.RawWrite?
      modifies `model
      ensures Valid() && model == After(old(model), step)
    {
      StepKeepsInv(model, step);
      model := After(model, step);
    }

    method Bind(request: nat, maxDeadline: int, ctxOver: bool, now: int)
      requires Valid() && Enabled(model, Begin(request, maxDeadline)) && ctxOver == (request in model.ended) && now == model.now
      modifies this
      ensures Valid() && model == After(old(model), Begin(request, maxDeadline))
    {
      StepKeepsInv(model, Begin(request, maxDeadline));
      model := After(model, Begin(request, maxDeadline));
      guard := Guard(Some(request), maxDeadline, ctxOver);
      rawDeadline := ClampNow(Some(maxDeadline), ctxOver, now);
    }

    method Unbind(request: nat)
      requires Valid() && Enabled(model, Step.Unbind(request))
      modifies this
      ensures Valid() && model == After(old(model), Step.Unbind(request))
    {
      StepKeepsInv(model, Step.Unbind(request));
      model := After(model, Step.Unbind(request));
      guard := Guard(None, 0, false);
    }

    /** Called by the watchdog of `request`. */
    method Cancel(request: nat, now: int)
      requires Valid() && Enabled(model, WatchdogFires(request)) && now == model.now
      modifies this
      ensures Valid() && model == After(old(model), WatchdogFires(request))
      ensures Woken(model)
    {
      StepKeepsInv(model, WatchdogFires(request));
      model := After(model, WatchdogFires(request));
      if guard.bound.None? { return; }
      guard := guard.(canceled := true);
      rawDeadline := Some(now);
    }

    /** requestErrorLocked. */
    method RequestError(ctxOver: bool, now: int) returns (over: bool)
      ensures over == Over(guard, ctxOver, now)
    {
      if guard.bound.None? { return false; }
      if guard.canceled { return true; }
      if ctxOver { return true; }
      over := now >= guard.maxDeadline;
    }

    /** clampDeadlineLocked. */
    method ClampNow(deadline: Option<int>, ctxOver: bool, now: int) returns (r: Option<int>)
      ensures r == Clamp(guard, ctxOver, now, deadline)
    {
      var over := RequestError(ctxOver, now);
      if over { return Some(LONG_AGO); }
      if guard.bound.Some? {
        if deadline.None? || deadline.value > guard.maxDeadline { return Some(guard.maxDeadline); }
      }
      r := deadline;
    }

    /** SetDeadline, SetReadDeadline and SetWriteDeadline.  While a request is bound, the raw deadline
        ends up at or before the request's own limit, and in the past once the request is over. */
    method SetDeadline(deadline: Option<int>, ctxOver: bool, now: int)
      requires Valid() && ctxOver == CtxOver(model) && now == model.now
      modifies this
      ensures Valid() && model == After(old(model), Step.SetDeadline(deadline))
      ensures guard.bound.None? ==> rawDeadline == deadline
      ensures RequestOver(model) ==> rawDeadline.Some? && rawDeadline.value < now
      ensures guard.bound.Some? && !RequestOver(model) ==>
                && rawDeadline.Some? && rawDeadline.value <= guard.maxDeadline
                && (deadline.Some? && deadline.value <= guard.maxDeadline ==> rawDeadline == deadline)
    {
      StepKeepsInv(model, Step.SetDeadline(deadline));
      model := After(model, Step.SetDeadline(deadline));
      rawDeadline := ClampNow(deadline, ctxOver, now);
    }

    /** The part of Write under the lock: the bytes go on to the raw connection exactly if the request
        is not over. */
    method CheckWrite(w: nat, ctxOver: bool, now: int) returns (ok: bool)
      requires Valid() && Enabled(model, Step.CheckWrite(w)) && ctxOver == CtxOver(model) && now == model.now
      modifies this
      ensures Valid() && model == After(old(model), Step.CheckWrite(w))
      ensures (ok <==> w in model.inFlight) && (ok <==> !RequestOver(model))
    {
      StepKeepsInv(model, Step.CheckWrite(w));
      model := After(model, Step.CheckWrite(w));
      var over := RequestError(ctxOver, now);
      ok := !over;
    }
  }

  // ---------- what holds of every run ----------

  /** One request's watchdog never touches another request's binding: when it fires, its own request
      is the one bound. */
  lemma WatchdogIsolation(steps: seq<Step>, t: State, r: nat)
    requires Reaches(Start, steps, t) && Enabled(t, WatchdogFires(r))
    ensures t.guard.bound == Some(r)
  {
    RunKeepsInv(Start, steps, t);
  }

  /** Once a bound request's watchdog has fired, whatever is blocked on the connection is past its
      deadline, until the request finishes; and as long as it has not fired, it does so as soon as the
      context is over. */
  lemma FiredWatchdogWakes(steps: seq<Step>, t: State, r: nat)
    requires Reaches(Start, steps, t) && t.guard.bound == Some(r) && r !in t.stopping
    ensures r in t.watchdogs
    ensures t.watchdogs[r].Stopped? ==> t.guard.canceled && t.rawDeadline.Some? && t.rawDeadline.value <= t.now
    ensures t.watchdogs[r].Running? && r in t.ended ==>
              Enabled(t, WatchdogFires(r)) && Woken(After(t, WatchdogFires(r)))
  {
    RunKeepsInv(Start, steps, t);
  }

  /** What a write and a deadline meet, said without the guard: a bound request whose context is live and
      whose limit is not reached writes, and gets the deadline it asks for up to its limit; any other
      bound request does not write, and gets a deadline in the past. */
  lemma GuardFollowsTheRequest(steps: seq<Step>, t: State, r: nat, w: nat, deadline: Option<int>)
    requires Reaches(Start, steps, t) && t.guard.bound == Some(r) && Enabled(t, CheckWrite(w))
    ensures var live := r !in t.ended && t.now < t.guard.maxDeadline;
      && (w in After(t, CheckWrite(w)).inFlight <==> live)
      && var placed := After(t, SetDeadline(deadline)).rawDeadline;
         && placed.Some?
         && (!live ==> placed.value < t.now)
         && (live && deadline.Some? && deadline.value <= t.guard.maxDeadline ==> placed == deadline)
         && (live && (deadline.None? || deadline.value > t.guard.maxDeadline) ==> placed.value == t.guard.maxDeadline)
  {
    RunKeepsInv(Start, steps, t);
  }

  /** Binding sets the limit: the deadline of a live request is its own, of one already over it is past. */
  lemma BindingSetsTheLimit(steps: seq<Step>, t: State, r: nat, maxDeadline: int)
    requires Reaches(Start, steps, t) && Enabled(t, Begin(r, maxDeadline))
    ensures var u := After(t, Begin(r, maxDeadline));
      && u.guard.bound == Some(r) && u.guard.maxDeadline == maxDeadline && u.rawDeadline.Some?
      && (if r !in t.ended && t.now < maxDeadline then u.rawDeadline.value == maxDeadline else u.rawDeadline.value < u.now)
  {
    RunKeepsInv(Start, steps, t);
  }

  /** Once unbound, the connection is free: deadlines are set as asked, and any new request can be bound. */
  lemma UnboundIsFree(steps: seq<Step>, t: State, r: nat, deadline: Option<int>, next: nat, maxDeadline: int)
    requires Reaches(Start, steps, t) && Enabled(t, Unbind(r)) && next !in t.watchdogs
    ensures var u := After(t, Unbind(r));
      After(u, SetDeadline(deadline)).rawDeadline == deadline && Enabled(u, Begin(next, maxDeadline))
  {
    RunKeepsInv(Start, steps, t);
  }

  /** No step of a stretch ends the binding. */
  predicate StaysBound(steps: seq<Step>) { forall i :: 0 <= i < |steps| ==> !steps[i].Unbind? }

  /** Once the bound request is over it stays over until it is unbound; no further write passes the
      check, so raw writes from then on are among those already in flight; and a deadline set through
      the wrapper is in the past. */
  lemma {:induction false} OverUntilUnbound(s: State, steps: seq<Step>, t: State)
    requires Inv(s) && RequestOver(s) && StaysBound(steps) && Reaches(s, steps, t)
    ensures RequestOver(t) && t.guard.bound == s.guard.bound
    ensures t.inFlight <= s.inFlight
    ensures |t.writes| - |s.writes| <= |s.inFlight| - |t.inFlight|
    ensures forall deadline :: After(t, SetDeadline(deadline)).rawDeadline == Some(LONG_AGO) && LONG_AGO < t.now
    decreases |steps|
  {
    if steps != [] {
      var m := After(s, steps[0]);
      StepKeepsInv(s, steps[0]);
      assert RequestOver(m) && m.guard.bound == s.guard.bound && m.inFlight <= s.inFlight;
      OverUntilUnbound(m, steps[1..], t);
    }
  }

  /** A write reaches the raw connection after its request is over exactly if one was in flight, past
      the check but not yet handed on, when the request ended: the check and the raw write are not
      one atomic step. */
  lemma LateWriteIffInFlight(s: State)
    requires Inv(s) && RequestOver(s)
    ensures (exists steps, t :: StaysBound(steps) && Reaches(s, steps, t) && |t.writes| > |s.writes|) <==> s.inFlight != {}
  {
    if s.inFlight != {} {
      var w :| w in s.inFlight;
      var t := After(s, RawWrite(w));
      var steps := [RawWrite(w)];
      assert steps[1..] == [] && Reaches(t, [], t);
      assert StaysBound(steps) && Reaches(s, steps, t) && |t.writes| > |s.writes|;
    }
    forall steps, t | StaysBound(steps) && Reaches(s, steps, t) ensures |t.writes| > |s.writes| ==> s.inFlight != {} {
      OverUntilUnbound(s, steps, t);
    }
  }

  /** The race happens: a write checked, the context ended, the bytes sent all the same. */
  lemma LateWriteHappens() returns (steps: seq<Step>, t: State)
    ensures Reaches(Start, steps, t) && t.writes == [(7, true)]
  {
    var s1 := After(Start, Begin(7, 10));
    var s2 := After(s1, CheckWrite(0));
    var s3 := After(s2, ContextEnds(7));
    t := After(s3, RawWrite(0));
    steps := [Begin(7, 10), CheckWrite(0), ContextEnds(7), RawWrite(0)];
    assert steps[1..] == [CheckWrite(0), ContextEnds(7), RawWrite(0)];
    assert steps[1..][1..] == [ContextEnds(7), RawWrite(0)];
    assert steps[1..][1..][1..] == [RawWrite(0)];
    assert steps[1..][1..][1..][1..] == [];
    assert Reaches(t, [], t);
    assert Reaches(s3, [RawWrite(0)], t);
    assert Reaches(s2, [ContextEnds(7), RawWrite(0)], t);
  }

  /** While a request is bound the raw deadline is never past its limit, except that a request that
      is over may have had it set to the moment it was cancelled. */
  lemma DeadlineIsBounded(steps: seq<Step>, t: State)
    requires Reaches(Start, steps, t) && t.guard.bound.Some?
    ensures t.rawDeadline.Some?
    ensures !RequestOver(t) ==> t.rawDeadline.value <= t.guard.maxDeadline
    ensures RequestOver(t) ==> t.rawDeadline.value <= t.guard.maxDeadline || t.rawDeadline.value <= t.now
  {
    RunKeepsInv(Start, steps, t);
  }
}
