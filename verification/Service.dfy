/**
 What readers get from the protocol in Coherence: that a fetched value is answered, that a refusal
 has a failed fetch or an ended context behind it, when stale data may stand in, that a stored reply
 is used for as long as it is fresh, and that a range is fetched once at a time.
 */
module Service {
  import opened Wrappers
  import opened Keys
  import E = Entries
  import C = Coalescing
  import opened Coherence

  // ---------- how a reader's answer comes about ----------

  /** What the reader was served agrees with what its call to the coalescing layer returned: a value
      is answered as it was read, an error is refused, or met with stale data if that is allowed; and
      a reader that made no such call had a hit. */
  ghost predicate ServedOk(cfg: Config, s: State, p: nat)
    requires p in s.readers
  {
    var r := s.readers[p];
    if p !in s.co.callers then r.served.Answer?
    else if r.served.Pending? then true
    else
      && s.co.callers[p].phase.Returned?
      && match s.co.callers[p].phase.out
         case Value(at) => at < |s.log| && r.served == Answer(Reply(s.log, r.req, at))
         case Error(f) => r.served == Refused(f) || (r.served.Answer? && StaleAllowed(cfg, r, f))
  }

  /** Stale data may stand in for failure f. */
  predicate StaleAllowed(cfg: Config, r: Reader, f: C.Failure) { cfg.serveStale && !f.ProtocolFailure? && r.active }

  lemma ReplyStays(s: State, t: State, r: ReadReq, at: nat)
    requires at < |s.log| <= |t.log| && forall i :: 0 <= i < |s.log| ==> t.log[i] == s.log[i]
    ensures Reply(t.log, r, at) == Reply(s.log, r, at)
  {
  }

  /** The calls that have returned stay returned, whatever step is taken. */
  lemma CallStays(cfg: Config, s: State, step: Step, p: nat)
    requires Enabled(cfg, s, step) && p in s.co.callers && s.co.callers[p].phase.Returned?
    ensures p in After(cfg, s, step).co.callers && After(cfg, s, step).co.callers[p].phase == s.co.callers[p].phase
  {
    match step
    case Coalesce(cs) => C.ReturnedStays(s.co, cs, p);
    case FetchDone(q) => assert p != q;
    case Enter(q, _) => assert p != q;
    case _ =>
  }

  /** Only an entering reader makes a new call. */
  lemma NewCallIsEntering(cfg: Config, s: State, step: Step, p: nat)
    requires Enabled(cfg, s, step) && p !in s.co.callers && p in After(cfg, s, step).co.callers
    ensures step.Enter? && step.p == p
  {
  }

  lemma OldCallStays(cfg: Config, s: State, step: Step, p: nat)
    requires Enabled(cfg, s, step) && p in s.co.callers
    ensures p in After(cfg, s, step).co.callers
  {
  }

  lemma MoverServed(cfg: Config, s: State, step: Step)
    requires Enabled(cfg, s, step) && (step.Enter? || step.Finish?)
    ensures step.p in After(cfg, s, step).readers && ServedOk(cfg, After(cfg, s, step), step.p)
  {
  }

  lemma BystanderServed(cfg: Config, s: State, step: Step, p: nat)
    requires Enabled(cfg, s, step) && p in s.readers && ServedOk(cfg, s, p) && Later(s, After(cfg, s, step))
    requires !((step.Enter? || step.Finish?) && step.p == p)
    ensures p in After(cfg, s, step).readers && ServedOk(cfg, After(cfg, s, step), p)
  {
    var t := After(cfg, s, step);
    var r := s.readers[p];
    assert p in t.readers && t.readers[p].req == r.req && t.readers[p].served == r.served && t.readers[p].active == r.active;
    if p !in s.co.callers {
      if p in t.co.callers { NewCallIsEntering(cfg, s, step, p); }
    } else if r.served.Pending? {
      OldCallStays(cfg, s, step, p);
    } else {
      CallStays(cfg, s, step, p);
      if s.co.callers[p].phase.out.Value? { ReplyStays(s, t, r.req, s.co.callers[p].phase.out.data); }
    }
  }

  ghost predicate AllServed(cfg: Config, s: State) { forall p :: p in s.readers ==> ServedOk(cfg, s, p) }

  lemma StepKeepsServed(cfg: Config, s: State, step: Step)
    requires Inv(s) && AllServed(cfg, s) && Enabled(cfg, s, step)
    ensures AllServed(cfg, After(cfg, s, step))
  {
    var t := After(cfg, s, step);
    StepIsLater(cfg, s, step);
    forall p | p in t.readers ensures ServedOk(cfg, t, p) {
      OnlyMoversChange(cfg, s, step, p);
      if (step.Enter? || step.Finish?) && step.p == p {
        MoverServed(cfg, s, step);
      } else {
        BystanderServed(cfg, s, step, p);
      }
    }
  }

  lemma {:induction false} RunKeepsServed(cfg: Config, s: State, steps: seq<Step>, t: State)
    requires Inv(s) && AllServed(cfg, s) && Reaches(cfg, s, steps, t)
    ensures Inv(t) && AllServed(cfg, t)
    decreases |steps|
  {
    if steps != [] {
      StepKeepsInv(cfg, s, steps[0]);
      StepKeepsServed(cfg, s, steps[0]);
      RunKeepsServed(cfg, After(cfg, s, steps[0]), steps[1..], t);
    }
  }

  /** A reader whose fetch, own or shared, brought a value back is answered exactly that: every sample
      read at the one log position of the fetch. */
  lemma FetchedValueIsAnswered(cfg: Config, device: Device, steps: seq<Step>, t: State, p: nat)
    requires Reaches(cfg, Start(device), steps, t) && p in t.readers && !t.readers[p].served.Pending?
    requires p in t.co.callers && t.co.callers[p].phase.Returned? && t.co.callers[p].phase.out.Value?
    ensures t.co.callers[p].phase.out.data < |t.log|
    ensures t.readers[p].served == Answer(Reply(t.log, t.readers[p].req, t.co.callers[p].phase.out.data))
  {
    RunKeepsServed(cfg, Start(device), steps, t);
    assert ServedOk(cfg, t, p);
  }

  /** A recorded failure happened: an attempt of that reader failed so in the course of the run. */
  lemma {:induction false} FailureHappened(cfg: Config, s: State, steps: seq<Step>, t: State, q: nat)
    requires Reaches(cfg, s, steps, t) && q in t.readers && t.readers[q].fetch.Failed?
    requires q in s.readers ==> !s.readers[q].fetch.Failed?
    ensures DeviceFail(q, t.readers[q].fetch.failure) in steps
    decreases |steps|
  {
    var m := After(cfg, s, steps[0]);
    if q in m.readers && m.readers[q].fetch.Failed? {
      assert steps[0] == DeviceFail(q, m.readers[q].fetch.failure);
      FailureStays(cfg, m, steps[1..], t, q);
    } else {
      FailureHappened(cfg, m, steps[1..], t, q);
    }
  }

  lemma {:induction false} FailureStays(cfg: Config, s: State, steps: seq<Step>, t: State, q: nat)
    requires Reaches(cfg, s, steps, t) && q in s.readers && s.readers[q].fetch.Failed?
    ensures q in t.readers && t.readers[q].fetch == s.readers[q].fetch
    decreases |steps|
  {
    if steps != [] { FailureStays(cfg, After(cfg, s, steps[0]), steps[1..], t, q); }
  }

  /** A refusal is never made up: the reader's own context ended, or the attempt of a reader of the same
      generation and range, possibly its own, failed with exactly this failure. */
  lemma RefusalHasACause(cfg: Config, device: Device, steps: seq<Step>, t: State, p: nat) returns (q: nat)
    requires Reaches(cfg, Start(device), steps, t) && p in t.readers && t.readers[p].served.Refused?
    ensures p in t.co.callers && t.co.callers[p].phase.Returned? && t.co.callers[p].phase.out == C.Error(t.readers[p].served.failure)
    ensures (t.readers[p].served.failure.ContextFailure? && t.co.callers[p].cancelled)
            || (q in t.readers && t.readers[q].gen == t.readers[p].gen && t.readers[q].req == t.readers[p].req
                && t.readers[q].fetch == Failed(t.readers[p].served.failure)
                && DeviceFail(q, t.readers[p].served.failure) in steps)
  {
    RunKeepsServed(cfg, Start(device), steps, t);
    assert ServedOk(cfg, t, p);
    q := C.ReturnedWasFetched(t.co, p);
    if !(t.readers[p].served.failure.ContextFailure? && t.co.callers[p].cancelled) {
      SameKey(t, p, q);
      FailureHappened(cfg, Start(device), steps, t, q);
    }
  }

  lemma SameKey(t: State, p: nat, q: nat)
    requires Inv(t) && p in t.co.callers && q in t.co.callers && t.co.callers[q].key == t.co.callers[p].key
    ensures p in t.readers && q in t.readers && CallerLinked(t, p) && CallerLinked(t, q)
    ensures t.readers[q].gen == t.readers[p].gen && t.readers[q].req == t.readers[p].req
  {
    assert CallerLinked(t, p) && CallerLinked(t, q);
    var x, y := t.readers[p], t.readers[q];
    RangeKeyInjective(x.gen, x.req.slave, x.req.fc, x.req.start, x.req.qty, y.gen, y.req.slave, y.req.fc, y.req.start, y.req.qty);
  }

  /** An error is met with an answer only if stale data is configured, the failure is not the device's own
      exception, and the reader's context was active. */
  lemma StaleOnlyIfAllowed(cfg: Config, device: Device, steps: seq<Step>, t: State, p: nat)
    requires Reaches(cfg, Start(device), steps, t) && p in t.readers && t.readers[p].served.Answer?
    requires p in t.co.callers && t.co.callers[p].phase.Returned? && t.co.callers[p].phase.out.Error?
    ensures cfg.serveStale && !t.co.callers[p].phase.out.failure.ProtocolFailure? && t.readers[p].active
  {
    RunKeepsServed(cfg, Start(device), steps, t);
    assert ServedOk(cfg, t, p);
  }

  /** A reader whose call has returned can finish, and is then served: with an answer exactly if the call
      brought a value, or stale data is allowed and every address of the range has an entry. */
  lemma FinishServes(cfg: Config, device: Device, steps: seq<Step>, t: State, p: nat, active: bool)
    requires Reaches(cfg, Start(device), steps, t) && p in t.readers && t.readers[p].served.Pending?
    requires p in t.co.callers && t.co.callers[p].phase.Returned? && (active ==> !t.co.callers[p].cancelled)
    ensures Enabled(cfg, t, Finish(p, active))
    ensures var r, out := t.readers[p], t.co.callers[p].phase.out;
      var served := After(cfg, t, Finish(p, active)).readers[p].served;
      && !served.Pending?
      && (served.Answer? <==>
            || out.Value?
            || (cfg.serveStale && !out.failure.ProtocolFailure? && active
                && forall a :: r.req.start <= a < r.req.start + r.req.qty ==> RegKey(r.req.slave, r.req.fc, a) in t.table))
      && (served.Refused? ==> out == C.Error(served.failure))
  {
    CanFinish(cfg, device, steps, t, p, active);
    FinishDecides(cfg, t, p, active);
  }

  lemma CanFinish(cfg: Config, device: Device, steps: seq<Step>, t: State, p: nat, active: bool)
    requires Reaches(cfg, Start(device), steps, t) && p in t.readers && t.readers[p].served.Pending?
    requires p in t.co.callers && t.co.callers[p].phase.Returned? && (active ==> !t.co.callers[p].cancelled)
    ensures Enabled(cfg, t, Finish(p, active)) && ValidRead(t.readers[p].req)
  {
    RunKeepsInv(cfg, Start(device), steps, t);
    var out := t.co.callers[p].phase.out;
    assert ReaderOk(t, p);
    if out.Value? {
      var q := C.ReturnedWasFetched(t.co, p);
      SameKey(t, p, q);
      CoalescedValueIsOk(t, p, q, out.data);
    }
  }

  lemma FinishDecides(cfg: Config, t: State, p: nat, active: bool)
    requires Enabled(cfg, t, Finish(p, active)) && ValidRead(t.readers[p].req)
    ensures var r, out := t.readers[p], t.co.callers[p].phase.out;
      var served := After(cfg, t, Finish(p, active)).readers[p].served;
      && !served.Pending?
      && (served.Answer? <==>
            || out.Value?
            || (cfg.serveStale && !out.failure.ProtocolFailure? && active
                && forall a :: r.req.start <= a < r.req.start + r.req.qty ==> RegKey(r.req.slave, r.req.fc, a) in t.table))
      && (served.Refused? ==> out == C.Error(served.failure))
  {
    PresentIffKeys(t.table, t.readers[p].req);
  }

  lemma PresentIffKeys(m: E.Table<Sample>, r: ReadReq)
    requires ValidRead(r)
    ensures E.AllPresent(m, r.slave, r.fc, r.start, r.qty) <==>
              forall a :: r.start <= a < r.start + r.qty ==> RegKey(r.slave, r.fc, a) in m
  {
    if E.AllPresent(m, r.slave, r.fc, r.start, r.qty) {
      forall a | r.start <= a < r.start + r.qty ensures RegKey(r.slave, r.fc, a) in m {
        E.KeyOfAddress(r.slave, r.fc, r.start, a);
        assert E.KeyAt(r.slave, r.fc, r.start, a - r.start) in m;
      }
    } else {
      var i :| 0 <= i < r.qty && E.KeyAt(r.slave, r.fc, r.start, i) !in m;
      E.KeyOfAddress(r.slave, r.fc, r.start, r.start + i);
    }
  }

  /** Every reader gets on: it has been served, or it is in the coalescing layer, where NeverStuck and
      EveryRunReturns see to it that its call returns. */
  lemma PendingReaderIsCalling(cfg: Config, device: Device, steps: seq<Step>, t: State, p: nat)
    requires Reaches(cfg, Start(device), steps, t) && p in t.readers && t.readers[p].served.Pending?
    ensures p in t.co.callers
  {
    RunKeepsServed(cfg, Start(device), steps, t);
    assert ServedOk(cfg, t, p);
  }

  // ---------- hits ----------

  /** A reader that enters is answered at once, with what the entries hold, exactly if every address of its
      range has an entry no older than its TTL; otherwise it goes on to the coalescing layer under the
      key of its generation and range. */
  lemma EnterAnswersHits(cfg: Config, s: State, p: nat, req: ReadReq)
    requires Enabled(cfg, s, Enter(p, req))
    ensures var t := After(cfg, s, Enter(p, req));
      && (t.readers[p].served.Answer? <==>
            forall a :: req.start <= a < req.start + req.qty ==>
              RegKey(req.slave, req.fc, a) in s.table
              && s.now - s.table[RegKey(req.slave, req.fc, a)].timestamp <= s.table[RegKey(req.slave, req.fc, a)].ttl)
      && (t.readers[p].served.Answer? ==>
            && t.co == s.co
            && |t.readers[p].served.samples| == req.qty
            && forall i :: 0 <= i < req.qty ==>
                 RegKey(req.slave, req.fc, req.start + i) in s.table
                 && t.readers[p].served.samples[i] == s.table[RegKey(req.slave, req.fc, req.start + i)].data)
      && (!t.readers[p].served.Answer? ==>
            && t.readers[p].served.Pending? && p in t.co.callers
            && t.co.callers[p].key == RangeKey(s.gen, req.slave, req.fc, req.start, req.qty))
  {
    FreshIffKeys(s.table, req, s.now);
    forall i | 0 <= i < req.qty ensures E.KeyAt(req.slave, req.fc, req.start, i) == RegKey(req.slave, req.fc, req.start + i) {
      E.KeyOfAddress(req.slave, req.fc, req.start, req.start + i);
    }
  }

  lemma FreshIffKeys(m: E.Table<Sample>, r: ReadReq, now: int)
    requires ValidRead(r)
    ensures E.AllFresh(m, r.slave, r.fc, r.start, r.qty, now) <==>
              forall a :: r.start <= a < r.start + r.qty ==>
                RegKey(r.slave, r.fc, a) in m && now - m[RegKey(r.slave, r.fc, a)].timestamp <= m[RegKey(r.slave, r.fc, a)].ttl
  {
    if E.AllFresh(m, r.slave, r.fc, r.start, r.qty, now) {
      forall a | r.start <= a < r.start + r.qty
        ensures RegKey(r.slave, r.fc, a) in m && now - m[RegKey(r.slave, r.fc, a)].timestamp <= m[RegKey(r.slave, r.fc, a)].ttl
      {
        E.KeyOfAddress(r.slave, r.fc, r.start, a);
        assert E.KeyAt(r.slave, r.fc, r.start, a - r.start) in m;
      }
    } else {
      var i :| 0 <= i < r.qty && !(E.KeyAt(r.slave, r.fc, r.start, i) in m && !E.Expired(m[E.KeyAt(r.slave, r.fc, r.start, i)], now));
      E.KeyOfAddress(r.slave, r.fc, r.start, r.start + i);
    }
  }

  // ---------- a stored reply is used ----------

  /** Every address of the range has an entry stored at t0 or later, under the configured TTL. */
  ghost predicate StoredSince(cfg: Config, s: State, r: ReadReq, t0: int) {
    forall i :: 0 <= i < r.qty ==> StoredKey(cfg, s, E.KeyAt(r.slave, r.fc, r.start, i), t0)
  }

  ghost predicate StoredKey(cfg: Config, s: State, k: string, t0: int) {
    k in s.table && s.table[k].timestamp >= t0 && s.table[k].ttl == cfg.ttl
  }

  predicate Overlap(slave: nat, start: nat, qty: nat, r: ReadReq) {
    slave == r.slave && qty > 0 && start < r.start + r.qty && r.start < start + qty
  }

  /** The step is a boundary of a write that overlaps the range. */
  predicate Touches(s: State, step: Step, r: ReadReq) {
    match step
    case WriteBegin(_, slave, start, qty) => Overlap(slave, start, qty, r)
    case WriteEnd(w) => w in s.writers && Overlap(s.writers[w].slave, s.writers[w].start, s.writers[w].qty, r)
    case _ => false
  }

  ghost predicate Undisturbed(cfg: Config, s: State, steps: seq<Step>, r: ReadReq)
    decreases |steps|
  {
    steps == [] || (Enabled(cfg, s, steps[0]) && !Touches(s, steps[0], r) && Undisturbed(cfg, After(cfg, s, steps[0]), steps[1..], r))
  }

  /** An invalidation elsewhere leaves the range alone. */
  lemma ElsewhereKeepsStored(cfg: Config, s: State, slave: nat, start: nat, qty: nat, r: ReadReq, i: nat)
    requires ValidRead(r) && start + qty <= E.ADDRESSES && !Overlap(slave, start, qty, r) && i < r.qty
    ensures var k := E.KeyAt(r.slave, r.fc, r.start, i);
      (k in E.Invalidate(s.table, slave, start, qty) <==> k in s.table) &&
      (k in s.table ==> E.Invalidate(s.table, slave, start, qty)[k] == s.table[k])
  {
    E.KeyOfAddress(r.slave, r.fc, r.start, r.start + i);
    E.InvalidateEffect(s.table, slave, start, qty, r.slave, r.fc, r.start + i);
  }

  lemma BoundaryKeepsStored(cfg: Config, s: State, step: Step, r: ReadReq, t0: int)
    requires ValidRead(r) && StoredSince(cfg, s, r, t0) && Enabled(cfg, s, step) && !Touches(s, step, r)
    requires (step.WriteBegin? || step.WriteEnd?) && (forall w :: w in s.writers ==> WriterOk(s, w))
    ensures StoredSince(cfg, After(cfg, s, step), r, t0)
  {
    var t := After(cfg, s, step);
    var x := t.writers[step.w];
    assert x.start + x.qty <= E.ADDRESSES by { if step.WriteEnd? { assert WriterOk(s, step.w); } }
    forall i | 0 <= i < r.qty ensures StoredKey(cfg, t, E.KeyAt(r.slave, r.fc, r.start, i), t0) {
      assert StoredKey(cfg, s, E.KeyAt(r.slave, r.fc, r.start, i), t0);
      ElsewhereKeepsStored(cfg, s, x.slave, x.start, x.qty, r, i);
    }
  }

  /** Another store can only renew entries. */
  lemma StoreKeepsStored(cfg: Config, s: State, step: Step, k: string, t0: int)
    requires StoredKey(cfg, s, k, t0) && Enabled(cfg, s, step) && step.Store? && t0 <= s.now && ValidRead(s.readers[step.p].req)
    ensures StoredKey(cfg, After(cfg, s, step), k, t0)
  {
    var r := s.readers[step.p];
    var reply := Reply(s.log, r.req, r.fetch.at);
    E.SetRangeEffect(s.table, r.req.slave, r.req.fc, r.req.start, reply, s.now, cfg.ttl);
    if k in E.RangeKeys(r.req.slave, r.req.fc, r.req.start, |reply|) {
      var i :| 0 <= i < |reply| && E.KeyAt(r.req.slave, r.req.fc, r.req.start, i) == k;
    }
  }

  lemma OtherStepsKeepStored(cfg: Config, s: State, step: Step, k: string, t0: int)
    requires StoredKey(cfg, s, k, t0) && Enabled(cfg, s, step) && !step.Store? && !step.WriteBegin? && !step.WriteEnd?
    requires s.now <= t0 + cfg.ttl
    ensures StoredKey(cfg, After(cfg, s, step), k, t0)
  {
  }

  lemma StepKeepsStored(cfg: Config, s: State, step: Step, r: ReadReq, t0: int)
    requires Inv(s) && ValidRead(r) && StoredSince(cfg, s, r, t0) && Enabled(cfg, s, step) && !Touches(s, step, r)
    requires t0 <= s.now <= t0 + cfg.ttl
    ensures StoredSince(cfg, After(cfg, s, step), r, t0)
  {
    if step.WriteBegin? || step.WriteEnd? {
      BoundaryKeepsStored(cfg, s, step, r, t0);
    } else {
      forall i | 0 <= i < r.qty ensures StoredKey(cfg, After(cfg, s, step), E.KeyAt(r.slave, r.fc, r.start, i), t0) {
        var k := E.KeyAt(r.slave, r.fc, r.start, i);
        assert StoredKey(cfg, s, k, t0);
        if step.Store? {
          assert ReaderOk(s, step.p);
          StoreKeepsStored(cfg, s, step, k, t0);
        } else {
          OtherStepsKeepStored(cfg, s, step, k, t0);
        }
      }
    }
  }

  lemma {:induction false} TimeMovesOn(cfg: Config, s: State, steps: seq<Step>, t: State)
    requires Reaches(cfg, s, steps, t)
    ensures s.now <= t.now
    decreases |steps|
  {
    if steps != [] { TimeMovesOn(cfg, After(cfg, s, steps[0]), steps[1..], t); }
  }

  lemma {:induction false} RunKeepsStored(cfg: Config, s: State, steps: seq<Step>, t: State, r: ReadReq, t0: int)
    requires Inv(s) && ValidRead(r) && StoredSince(cfg, s, r, t0) && Reaches(cfg, s, steps, t) && Undisturbed(cfg, s, steps, r)
    requires t0 <= s.now && t.now <= t0 + cfg.ttl
    ensures StoredSince(cfg, t, r, t0)
    decreases |steps|
  {
    if steps != [] {
      TimeMovesOn(cfg, s, steps, t);
      StepKeepsInv(cfg, s, steps[0]);
      StepKeepsStored(cfg, s, steps[0], r, t0);
      RunKeepsStored(cfg, After(cfg, s, steps[0]), steps[1..], t, r, t0);
    }
  }

  predicate PartOf(part: ReadReq, r: ReadReq) {
    part.slave == r.slave && part.fc == r.fc && r.start <= part.start && part.start + part.qty <= r.start + r.qty
  }

  /** The store that is let through stores every address of its range. */
  lemma StoreStores(cfg: Config, s: State, p: nat, part: ReadReq)
    requires Enabled(cfg, s, Store(p, true)) && s.gen == s.readers[p].gen && ValidRead(s.readers[p].req)
    requires ValidRead(part) && PartOf(part, s.readers[p].req)
    ensures StoredSince(cfg, After(cfg, s, Store(p, true)), part, s.now)
  {
    var r := s.readers[p];
    E.StoredSubRange(s.table, r.req.slave, r.req.fc, r.req.start, Reply(s.log, r.req, r.fetch.at), s.now, cfg.ttl,
                     part.start - r.req.start, part.qty, part.start);
  }

  /** The cache is used: once a reply has been stored, with no write begun or ended since its reader's
      lookup, every later reader of any part of its range is answered at once, without a fetch, for as long as the
      TTL lasts and no overlapping write begins or ends. */
  lemma StoredReplyIsUsed(cfg: Config, device: Device, before: seq<Step>, s: State, p: nat, steps: seq<Step>, t: State, q: nat, part: ReadReq)
    requires Reaches(cfg, Start(device), before, s) && Enabled(cfg, s, Store(p, true)) && s.gen == s.readers[p].gen
    requires ValidRead(part) && PartOf(part, s.readers[p].req)
    requires Reaches(cfg, After(cfg, s, Store(p, true)), steps, t) && Undisturbed(cfg, After(cfg, s, Store(p, true)), steps, part)
    requires t.now - s.now <= cfg.ttl && Enabled(cfg, t, Enter(q, part))
    ensures After(cfg, t, Enter(q, part)).readers[q].served.Answer? && After(cfg, t, Enter(q, part)).co == t.co
  {
    RunKeepsInv(cfg, Start(device), before, s);
    StepKeepsInv(cfg, s, Store(p, true));
    assert ReaderOk(s, p);
    StoreStores(cfg, s, p, part);
    RunKeepsStored(cfg, After(cfg, s, Store(p, true)), steps, t, part, s.now);
    StoredIsHit(cfg, t, q, part, s.now);
  }

  lemma StoredIsHit(cfg: Config, t: State, q: nat, part: ReadReq, t0: int)
    requires StoredSince(cfg, t, part, t0) && t.now - t0 <= cfg.ttl && Enabled(cfg, t, Enter(q, part))
    ensures After(cfg, t, Enter(q, part)).readers[q].served.Answer? && After(cfg, t, Enter(q, part)).co == t.co
  {
    forall i | 0 <= i < part.qty
      ensures E.KeyAt(part.slave, part.fc, part.start, i) in t.table
              && !E.Expired(t.table[E.KeyAt(part.slave, part.fc, part.start, i)], t.now)
    {
      assert StoredKey(cfg, t, E.KeyAt(part.slave, part.fc, part.start, i), t0);
    }
    assert E.AllFresh(t.table, part.slave, part.fc, part.start, part.qty, t.now);
  }

  // ---------- one fetch at a time ----------

  /** At any time at most one reader is fetching for a generation and range. */
  lemma OneFetchPerRange(cfg: Config, device: Device, steps: seq<Step>, t: State, p: nat, q: nat)
    requires Reaches(cfg, Start(device), steps, t) && Leading(t, p) && Leading(t, q)
    requires t.readers[p].gen == t.readers[q].gen && t.readers[p].req == t.readers[q].req
    ensures p == q
  {
    RunKeepsInv(cfg, Start(device), steps, t);
    assert CallerLinked(t, p) && CallerLinked(t, q);
    assert C.CallerOk(t.co, p) && C.CallerOk(t.co, q);
    C.SameKeySameLeader(t.co, p, q);
  }

  /** A cleanup pass leaves exactly the entries that may still be served. */
  lemma SweepLeavesTheServable(cfg: Config, s: State, k: string)
    ensures k in After(cfg, s, Sweep).table <==> k in s.table && (cfg.serveStale || s.now - s.table[k].timestamp <= s.table[k].ttl)
    ensures k in After(cfg, s, Sweep).table ==> After(cfg, s, Sweep).table[k] == s.table[k]
  {
  }
}
