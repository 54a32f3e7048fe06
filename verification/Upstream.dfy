/**
 The world on the far side of the upstream client: sessions that are dialled, used and closed, a
 clock, and request contexts that may end at any moment.  `Wire` records everything that is done
 to it; what it answers is arbitrary.
 */
module Upstream {
  import opened Wrappers
  import opened Errors

  /** What a wire attempt can come back with: a reply, or an error from outside. */
  type WireOutcome = o: Option<Err> | o.Some? ==> Foreign(o.value) witness None

  /** What dialling can come back with: an error is not a Modbus exception, nothing has been asked yet. */
  type DialOutcome = o: Option<Err> | o.Some? ==> Foreign(o.value) && Search(o.value).modbus.None? witness None

  /** `ended`: the caller's context was over by the time the attempt came back. */
  datatype Event =
    | Dialed(sid: nat, err: DialOutcome)
    | Closed(sid: nat)
    | Sent(sid: nat, fc: nat, at: int, done: int, raw: WireOutcome, ended: bool)

  /** A reply, or a genuine exception with no context error about: the connection is still sound. */
  predicate Harmless(e: Event)
    requires e.Sent?
  {
    e.raw.None? || (Genuine(e.fc, e.raw.value) && !MentionsContext(e.raw.value))
  }

  function Dials(log: seq<Event>): nat {
    if log == [] then 0 else Dials(log[..|log| - 1]) + if log[|log| - 1].Dialed? then 1 else 0
  }

  /** The session a client that follows the rules may still use: the last one dialled, until it is
      closed or an attempt on it fails with anything but a genuine exception. */
  function Live(log: seq<Event>): Option<nat> {
    if log == [] then None else
    var init, e := log[..|log| - 1], log[|log| - 1];
    match e
    case Dialed(sid, err) => if err.None? then Some(sid) else Live(init)
    case Closed(sid) => if Live(init) == Some(sid) then None else Live(init)
    case Sent(_, _, _, _, _, _) => if Harmless(e) then Live(init) else None
  }

  /** Sessions are numbered as they are dialled, and requests go to the live session only. */
  predicate Disciplined(log: seq<Event>) {
    log == [] ||
    var init, e := log[..|log| - 1], log[|log| - 1];
    && Disciplined(init)
    && match e
       case Dialed(sid, _) => sid == Dials(init)
       case Closed(_) => true
       case Sent(sid, _, _, _, _, _) => Live(init) == Some(sid)
  }

  /** When the latest reply came in. */
  function LatestReply(log: seq<Event>): Option<int> {
    if log == [] then None else
    var before, e := LatestReply(log[..|log| - 1]), log[|log| - 1];
    if e.Sent? && e.raw.None? && (before.None? || before.value < e.done) then Some(e.done) else before
  }

  /** Every reply in the log came at least `delay` before time t. */
  predicate Rested(log: seq<Event>, delay: int, t: int) {
    LatestReply(log).None? || LatestReply(log).value + delay <= t
  }

  predicate Paced(log: seq<Event>, delay: int) {
    log == [] ||
    var init, e := log[..|log| - 1], log[|log| - 1];
    Paced(init, delay) && (e.Sent? ==> Rested(init, delay, e.at))
  }

  /** An attempt: a request on the wire, or a connection that could not be made. */
  predicate IsTry(e: Event) { e.Sent? || (e.Dialed? && e.err.Some?) }

  /** The attempts in a stretch of the log. */
  function Tries(log: seq<Event>): seq<Event> {
    if log == [] then [] else
    Tries(log[..|log| - 1]) + if IsTry(log[|log| - 1]) then [log[|log| - 1]] else []
  }

  /** From position `from` on nothing is dialled or closed while a session is live: a sound session
      is not given up. */
  predicate Thrifty(log: seq<Event>, from: nat) {
    |log| <= from ||
    var init, e := log[..|log| - 1], log[|log| - 1];
    Thrifty(init, from) && (e.Sent? || Live(init).None?)
  }

  // ---------- what the rules imply for whole logs ----------

  lemma {:induction false} LiveWasDialed(log: seq<Event>)
    requires Disciplined(log)
    ensures Live(log).Some? ==> Live(log).value < Dials(log)
  {
    if log != [] { LiveWasDialed(log[..|log| - 1]); }
  }

  lemma {:induction false} DisciplinedPrefix(log: seq<Event>, n: nat)
    requires Disciplined(log) && n <= |log|
    ensures Disciplined(log[..n])
    decreases |log|
  {
    if n < |log| {
      DisciplinedPrefix(log[..|log| - 1], n);
      assert log[..|log| - 1][..n] == log[..n];
    } else {
      assert log[..n] == log;
    }
  }

  /** Once an attempt on a session has failed badly, that session is never live again. */
  lemma {:induction false} PoisonIsForever(log: seq<Event>, i: nat, n: nat)
    requires Disciplined(log) && i < n <= |log| && log[i].Sent? && !Harmless(log[i])
    ensures Live(log[..n]) != Some(log[i].sid) && log[i].sid < Dials(log[..n])
    decreases n
  {
    DisciplinedPrefix(log, n);
    assert log[..n][..n - 1] == log[..n - 1];
    if n == i + 1 {
      LiveWasDialed(log[..i]);
    } else {
      PoisonIsForever(log, i, n - 1);
    }
  }

  /** No poisoned connection is ever used again. */
  lemma NoPoisonedReuse(log: seq<Event>, i: nat, j: nat)
    requires Disciplined(log) && i < j < |log| && log[i].Sent? && !Harmless(log[i]) && log[j].Sent?
    ensures log[j].sid != log[i].sid
  {
    PoisonIsForever(log, i, j);
    DisciplinedPrefix(log, j + 1);
    assert log[..j + 1][..j] == log[..j];
  }

  /** Where only requests are made and broken sessions replaced, a session that answers goes on
      being used: from one attempt to a later one with no bad failure in between, it is the same. */
  lemma {:induction false} SoundSessionIsKept(log: seq<Event>, from: nat, i: nat, j: nat)
    requires Disciplined(log) && Thrifty(log, from) && from <= i < j < |log| && log[i].Sent? && log[j].Sent?
    requires forall k :: i <= k < j && log[k].Sent? ==> Harmless(log[k])
    ensures log[j].sid == log[i].sid
    decreases |log|
  {
    var init := log[..|log| - 1];
    if j == |log| - 1 {
      StaysLive(init, from, i);
    } else {
      SoundSessionIsKept(init, from, i, j);
    }
  }

  lemma {:induction false} StaysLive(log: seq<Event>, from: nat, i: nat)
    requires Disciplined(log) && Thrifty(log, from) && from <= i < |log| && log[i].Sent?
    requires forall k :: i <= k < |log| && log[k].Sent? ==> Harmless(log[k])
    ensures Live(log) == Some(log[i].sid)
    decreases |log|
  {
    if i < |log| - 1 {
      StaysLive(log[..|log| - 1], from, i);
      assert log[|log| - 1].Sent?;
    }
  }

  lemma {:induction false} ThriftyJoined(log: seq<Event>, more: seq<Event>, from: nat)
    requires log <= more && Thrifty(log, from) && Thrifty(more, |log|)
    ensures Thrifty(more, from)
    decreases |more|
  {
    if |log| < |more| {
      ThriftyJoined(log, more[..|more| - 1], from);
    } else {
      assert more == log;
    }
  }

  lemma {:induction false} NoReplyIsLater(log: seq<Event>, i: nat)
    requires i < |log| && log[i].Sent? && log[i].raw.None?
    ensures LatestReply(log).Some? && log[i].done <= LatestReply(log).value
    decreases |log|
  {
    if i < |log| - 1 { NoReplyIsLater(log[..|log| - 1], i); }
  }

  /** Every attempt starts at least `delay` after every earlier reply. */
  lemma {:induction false} PacedRun(log: seq<Event>, delay: int, i: nat, j: nat)
    requires Paced(log, delay) && i < j < |log| && log[i].Sent? && log[i].raw.None? && log[j].Sent?
    ensures log[i].done + delay <= log[j].at
    decreases |log|
  {
    var init := log[..|log| - 1];
    if j == |log| - 1 {
      NoReplyIsLater(init, i);
    } else {
      PacedRun(init, delay, i, j);
    }
  }

  // ---------- one more event ----------

  lemma Extend(log: seq<Event>, e: Event)
    ensures (log + [e])[..|log + [e]| - 1] == log && (log + [e])[|log + [e]| - 1] == e
  {
  }

  lemma ThriftyExtend(log: seq<Event>, e: Event, from: nat)
    requires Thrifty(log, from) && (e.Sent? || Live(log).None?)
    ensures Thrifty(log + [e], from)
  {
    Extend(log, e);
  }

  // ---------- the environment as objects ----------

  /** A request context.  Once it is over it stays over; which of the two context errors is
      reported can differ from one look to the next.  `ends` and `late` are arbitrary. */
  class Context {
    var over: bool
    var looks: nat
    const ends: nat -> bool
    const late: nat -> bool

    constructor (ends: nat -> bool, late: nat -> bool)
      ensures !over && this.ends == ends && this.late == late
    {
      over, looks := false, 0;
      this.ends, this.late := ends, late;
    }

    /** Something takes its time; the context may end meanwhile, whether anybody looks or not. */
    method Elapse()
      modifies this
      ensures old(over) ==> over
    {
      looks := looks + 1;
      if ends(looks) { over := true; }
    }

    method Error() returns (e: Option<Err>)
      modifies this
      ensures old(over) ==> over
      ensures e.Some? <==> over
      ensures e.Some? ==> e.value.DeadlineExceeded? || e.value.Canceled?
    {
      Elapse();
      e := if !over then None else if late(looks) then Some(DeadlineExceeded) else Some(Canceled);
    }
  }

  /** The upstream side.  `elapsed`, `dialing` and `replies` are arbitrary: how long each operation
      takes and what it comes back with. */
  class Wire {
    ghost var log: seq<Event>
    var dials: nat
    var clock: int
    var moves: nat
    const elapsed: nat -> nat
    const dialing: nat -> DialOutcome
    const replies: nat -> WireOutcome

    constructor (elapsed: nat -> nat, dialing: nat -> DialOutcome, replies: nat -> WireOutcome)
      ensures Valid() && log == []
    {
      log, dials, clock, moves := [], 0, 0, 0;
      this.elapsed, this.dialing, this.replies := elapsed, dialing, replies;
    }

    ghost predicate Valid()
      reads this
    {
      dials == Dials(log) && Rested(log, 0, clock)
    }

    /** Time passes. */
    method Pass()
      requires Valid()
      modifies `clock, `moves
      ensures Valid() && clock >= old(clock)
    {
      moves := moves + 1;
      clock := clock + elapsed(moves);
    }

    /** A timer set for time t fires, at t or later. */
    method PassUntil(t: int)
      requires Valid()
      modifies `clock, `moves
      ensures Valid() && clock >= old(clock) && clock >= t
    {
      moves := moves + 1;
      if clock < t { clock := t; }
      clock := clock + elapsed(moves);
    }

    /** A new session is made and connected. */
    method Dial() returns (sid: nat, err: DialOutcome)
      requires Valid()
      modifies this
      ensures Valid() && sid == old(dials) && log == old(log) + [Dialed(sid, err)] && clock >= old(clock)
      ensures dials == old(dials) + 1
    {
      Pass();
      sid, err := dials, dialing(moves);
      dials := dials + 1;
      Extend(log, Dialed(sid, err));
      log := log + [Dialed(sid, err)];
    }

    method Close(sid: nat)
      requires Valid()
      modifies this
      ensures Valid() && log == old(log) + [Closed(sid)] && clock >= old(clock) && dials == old(dials)
    {
      Pass();
      Extend(log, Closed(sid));
      log := log + [Closed(sid)];
    }

    /** One wire attempt, made only with a context last seen live. */
    method Send(sid: nat, fc: nat, ctx: Context) returns (raw: WireOutcome)
      requires Valid() && !ctx.over
      modifies this, ctx
      ensures Valid() && dials == old(dials) && clock >= old(clock)
      ensures log == old(log) + [Sent(sid, fc, old(clock), clock, raw, ctx.over)]
    {
      ghost var at := clock;
      Pass();
      ctx.Elapse();
      raw := replies(moves);
      Extend(log, Sent(sid, fc, at, clock, raw, ctx.over));
      log := log + [Sent(sid, fc, at, clock, raw, ctx.over)];
    }
  }
}
