/**
 The write-generation protocol of `handleRead` and `handleWrite`, for any number of concurrent
 readers and writers, on top of the cache table and of the coalescing protocol.

 A step is one critical section under `cacheStateMu`, one coalescing step, or one effect on the
 device.  The device's past is a log of its states; a sample remembers the log position it was
 read at.  The log, the samples' positions and the writers' marks are history:
 no guard and no branch looks at them, except that a device read returns the newest state.
 */
module Coherence {
  import opened Wrappers
  import opened Keys
  import E = Entries
  import C = Coalescing

  datatype Cell = Cell(slave: nat, fc: nat, addr: nat)

  type Device = Cell -> int

  datatype Sample = Sample(value: int, at: nat)

  datatype ReadReq = ReadReq(slave: nat, fc: nat, start: nat, qty: nat)

  /** How far a reader's own fetch has come: nothing yet, a reply read from the device, the reply
      after the guarded store, or an error. */
  datatype Fetch = NotFetched | Got(at: nat) | Stored(at: nat) | Failed(failure: C.Failure)

  datatype Served = Pending | Answer(samples: seq<Sample>) | Refused(failure: C.Failure)

  /** `gen` is the write generation seen together with the first lookup; `active` is history: whether
      the reader's context was found active when it finished. */
  datatype Reader = Reader(req: ReadReq, gen: nat, fetch: Fetch, served: Served, active: bool)

  /** `began` is the generation its first invalidation installed, `begunAt` the first log position after
      it (the device's state is repeated there, to tell what is read before from what is read after).  A
      write between its two invalidations has `ended == None`; afterwards `ended` is the generation its
      second invalidation installed.  `applied` is the log position of the first device state that
      includes it, if it took effect at all. */
  datatype Writer = Writer(slave: nat, start: nat, qty: nat, began: nat, begunAt: nat, applied: Option<nat>, ended: Option<nat>)

  datatype Config = Config(ttl: int, serveStale: bool)

  datatype State = State(now: int, gen: nat, table: E.Table<Sample>, co: C.State, log: seq<Device>,
                         readers: map<nat, Reader>, writers: map<nat, Writer>)

  datatype Step =
    | Enter(p: nat, req: ReadReq)
    | Coalesce(step: C.Step)
    | DeviceRead(p: nat)
    | DeviceFail(p: nat, failure: C.Failure)
    | Store(p: nat, decomposes: bool)
    | FetchDone(p: nat)
    | Finish(p: nat, contextActive: bool)
    | WriteBegin(w: nat, slave: nat, start: nat, qty: nat)
    | DeviceApply(w: nat, device: Device)
    | WriteEnd(w: nat)
    | Evolve(device: Device)
    | Tick(delta: nat)
    | Sweep

  ghost function Start(device: Device): State { State(0, 0, map[], C.Start, [device], map[], map[]) }

  predicate ValidRead(r: ReadReq) { 1 <= r.fc <= 4 && 0 < r.qty && r.start + r.qty <= E.ADDRESSES }

  predicate ValidCell(c: Cell) { 1 <= c.fc <= 4 && c.addr < E.ADDRESSES }

  function CellKey(c: Cell): string { RegKey(c.slave, c.fc, c.addr) }

  function CellOf(r: ReadReq, i: nat): Cell { Cell(r.slave, r.fc, r.start + i) }

  function KeyOf(r: Reader): string { RangeKey(r.gen, r.req.slave, r.req.fc, r.req.start, r.req.qty) }

  predicate Covers(w: Writer, c: Cell) { w.slave == c.slave && w.start <= c.addr < w.start + w.qty }

  /** What the device reports for a range at log position `at`. */
  function Reply(log: seq<Device>, r: ReadReq, at: nat): seq<Sample>
    requires at < |log|
  {
    seq(r.qty, i requires 0 <= i < r.qty => Sample(log[at](CellOf(r, i)), at))
  }

  predicate Leading(s: State, p: nat) { p in s.readers && p in s.co.callers && s.co.callers[p].phase.Fetching? }

  ghost predicate Enabled(cfg: Config, s: State, step: Step) {
    match step
    case Enter(p, req) => p !in s.readers && p !in s.co.callers && ValidRead(req)
    case Coalesce(cs) => !cs.Arrive? && !cs.FetchReturn? && C.Enabled(s.co, cs)
    case DeviceRead(p) => Leading(s, p) && (s.readers[p].fetch.NotFetched? || s.readers[p].fetch.Got?) && |s.log| > 0
    case DeviceFail(p, _) => Leading(s, p) && s.readers[p].fetch.NotFetched?
    case Store(p, _) => Leading(s, p) && s.readers[p].fetch.Got? && s.readers[p].fetch.at < |s.log|
    case FetchDone(p) => Leading(s, p) && (s.readers[p].fetch.Stored? || s.readers[p].fetch.Failed?)
    case Finish(p, active) =>
      && p in s.readers && s.readers[p].served.Pending?
      && p in s.co.callers && s.co.callers[p].phase.Returned?
      && (active ==> !s.co.callers[p].cancelled)
      && (s.co.callers[p].phase.out.Value? ==> s.co.callers[p].phase.out.data < |s.log|)
    case WriteBegin(w, _, start, qty) => w !in s.writers && start + qty <= E.ADDRESSES && |s.log| > 0
    case DeviceApply(w, _) => w in s.writers && s.writers[w].applied.None? && s.writers[w].ended.None?
    case WriteEnd(w) => w in s.writers && s.writers[w].ended.None?
    case Evolve(_) => true
    case Tick(_) => true
    case Sweep => true
  }

  function SetReader(s: State, p: nat, r: Reader): State { s.(readers := s.readers[p := r]) }

  ghost function After(cfg: Config, s: State, step: Step): State
    requires Enabled(cfg, s, step)
  {
    match step
    case Enter(p, req) =>
      // one critical section: lookup, and on a miss the generation snapshot
      var hit := E.GetRange(s.table, req.slave, req.fc, req.start, req.qty, s.now);
      if hit.Some? then SetReader(s, p, Reader(req, s.gen, NotFetched, Answer(hit.value), false))
      else
        var r := Reader(req, s.gen, NotFetched, Pending, false);
        SetReader(s, p, r).(co := C.After(s.co, C.Arrive(p, KeyOf(r))))
    case Coalesce(cs) => s.(co := C.After(s.co, cs))
    case DeviceRead(p) => SetReader(s, p, s.readers[p].(fetch := Got(|s.log| - 1)))
    case DeviceFail(p, failure) => SetReader(s, p, s.readers[p].(fetch := Failed(failure)))
    case Store(p, decomposes) =>
      // one critical section: store only if no write began or ended since the snapshot
      var r := s.readers[p];
      var t := SetReader(s, p, r.(fetch := Stored(r.fetch.at)));
      if decomposes && s.gen == r.gen then
        t.(table := E.SetRange(s.table, r.req.slave, r.req.fc, r.req.start, Reply(s.log, r.req, r.fetch.at), s.now, cfg.ttl))
      else t
    case FetchDone(p) =>
      var f := s.readers[p].fetch;
      var raw := if f.Stored? then C.Value(f.at) else C.Error(f.failure);
      s.(co := C.After(s.co, C.FetchReturn(p, raw)))
    case Finish(p, active) =>
      var r, out := s.readers[p].(active := active), s.co.callers[p].phase.out;
      if out.Value? then SetReader(s, p, r.(served := Answer(Reply(s.log, r.req, out.data))))
      else
        var stale := E.GetRangeStale(s.table, r.req.slave, r.req.fc, r.req.start, r.req.qty);
        if cfg.serveStale && !out.failure.ProtocolFailure? && active && stale.Some?
        then SetReader(s, p, r.(served := Answer(stale.value)))
        else SetReader(s, p, r.(served := Refused(out.failure)))
    case WriteBegin(w, slave, start, qty) =>
      s.(gen := s.gen + 1, table := E.Invalidate(s.table, slave, start, qty),
         log := s.log + [s.log[|s.log| - 1]], writers := s.writers[w := Writer(slave, start, qty, s.gen + 1, |s.log|, None, None)])
    case DeviceApply(w, device) =>
      s.(log := s.log + [device], writers := s.writers[w := s.writers[w].(applied := Some(|s.log|))])
    case WriteEnd(w) =>
      var x := s.writers[w];
      s.(gen := s.gen + 1, table := E.Invalidate(s.table, x.slave, x.start, x.qty),
         writers := s.writers[w := x.(ended := Some(s.gen + 1))])
    case Evolve(device) => s.(log := s.log + [device])
    case Tick(delta) => s.(now := s.now + delta)
    case Sweep => s.(table := E.Cleanup(s.table, cfg.serveStale, s.now))
  }

  ghost predicate Reaches(cfg: Config, s: State, steps: seq<Step>, t: State)
    decreases |steps|
  {
    if steps == [] then s == t
    else Enabled(cfg, s, steps[0]) && Reaches(cfg, After(cfg, s, steps[0]), steps[1..], t)
  }

  // ---------- invariant ----------

  /** A write whose second invalidation installed a generation no later than g. */
  predicate EndedBy(w: Writer, g: nat) { w.ended.Some? && w.ended.value <= g }

  /** The oldest log position that is recent enough, as far as write w is concerned, for one who knows
      of generation g: where it took effect if it has ended, where it began if it has begun. */
  function Floor(w: Writer, g: nat): nat {
    if EndedBy(w, g) && w.applied.Some? then w.applied.value
    else if w.began <= g then w.begunAt
    else 0
  }

  /** Log position `at` is recent enough for generation g. */
  ghost predicate NotBefore(s: State, g: nat, at: nat) {
    && at < |s.log|
    && forall w :: w in s.writers ==> Floor(s.writers[w], g) <= at
  }

  /** Sample x is what the device held in cell c, recent enough for the writes to c that generation g
      knows of. */
  ghost predicate SampleOk(s: State, c: Cell, g: nat, x: Sample) {
    && x.at < |s.log|
    && x.value == s.log[x.at](c)
    && forall w :: w in s.writers && Covers(s.writers[w], c) ==> Floor(s.writers[w], g) <= x.at
  }

  ghost predicate TableOk(s: State) {
    forall c :: ValidCell(c) && CellKey(c) in s.table ==> SampleOk(s, c, s.gen, s.table[CellKey(c)].data)
  }

  ghost predicate WriterOk(s: State, w: nat)
    requires w in s.writers
  {
    var x := s.writers[w];
    && x.start + x.qty <= E.ADDRESSES
    && x.began <= s.gen && x.begunAt < |s.log|
    && (x.applied.Some? ==> x.begunAt <= x.applied.value < |s.log|)
    && (x.ended.Some? ==> x.began < x.ended.value <= s.gen)
  }

  ghost predicate ReaderOk(s: State, p: nat)
    requires p in s.readers
  {
    var r := s.readers[p];
    && ValidRead(r.req)
    && r.gen <= s.gen
    && (r.fetch.Got? || r.fetch.Stored? ==> NotBefore(s, r.gen, r.fetch.at))
    && (r.served.Answer? ==>
          && |r.served.samples| == r.req.qty
          && forall i :: 0 <= i < r.req.qty ==> SampleOk(s, CellOf(r.req, i), r.gen, r.served.samples[i]))
  }

  /** A caller inside the coalescing layer is a reader, under its own key; a value it fetched is the
      reply it stored, an error it fetched is the error of its attempt. */
  ghost predicate CallerLinked(s: State, p: nat)
    requires p in s.co.callers
  {
    && p in s.readers
    && s.co.callers[p].key == KeyOf(s.readers[p])
    && (s.co.callers[p].fetched.Some? && s.co.callers[p].fetched.value.Value? ==>
          s.readers[p].fetch == Stored(s.co.callers[p].fetched.value.data))
    && (s.co.callers[p].fetched.Some? && s.co.callers[p].fetched.value.Error? ==>
          s.readers[p].fetch == Failed(s.co.callers[p].fetched.value.failure))
  }

  ghost predicate Inv(s: State) {
    && |s.log| > 0
    && C.Inv(s.co)
    && TableOk(s)
    && (forall w :: w in s.writers ==> WriterOk(s, w))
    && (forall p :: p in s.readers ==> ReaderOk(s, p))
    && (forall p :: p in s.co.callers ==> CallerLinked(s, p))
  }

  // ---------- how the system moves on ----------

  /** y is write x later on: the same range and beginning, and all the same once it has ended. */
  predicate SameWrite(x: Writer, y: Writer) {
    && y.slave == x.slave && y.start == x.start && y.qty == x.qty && y.began == x.began && y.begunAt == x.begunAt
    && (x.ended.Some? ==> y == x)
  }

  /** t is a later state of s: generations and the log only grow, ended writes are settled, writes
      that begin or end later do so under a later generation, readers keep request and snapshot, and
      readers that enter later take a later snapshot. */
  ghost predicate Later(s: State, t: State) {
    && s.gen <= t.gen
    && |s.log| <= |t.log| && (forall i :: 0 <= i < |s.log| ==> t.log[i] == s.log[i])
    && (forall w :: w in s.writers ==> w in t.writers && SameWrite(s.writers[w], t.writers[w]))
    && (forall w :: w in t.writers && w !in s.writers ==> s.gen < t.writers[w].began)
    && (forall w :: w in t.writers && EndedBy(t.writers[w], s.gen) ==> w in s.writers && t.writers[w] == s.writers[w])
    && (forall p :: p in s.readers ==> p in t.readers && t.readers[p].gen == s.readers[p].gen && t.readers[p].req == s.readers[p].req)
    && (forall p :: p in t.readers && p !in s.readers ==> s.gen <= t.readers[p].gen)
  }

  lemma StepIsLater(cfg: Config, s: State, step: Step)
    requires Enabled(cfg, s, step) && (forall w :: w in s.writers ==> WriterOk(s, w))
    ensures Later(s, After(cfg, s, step))
  {
    if step.WriteBegin? || step.WriteEnd? {
      BoundaryIsLater(cfg, s, step);
    } else if step.Enter? || step.DeviceApply? || step.Evolve? {
    } else {
      ReaderStepIsLater(cfg, s, step);
    }
  }

  lemma BoundaryIsLater(cfg: Config, s: State, step: Step)
    requires Enabled(cfg, s, step) && (step.WriteBegin? || step.WriteEnd?) && (forall w :: w in s.writers ==> WriterOk(s, w))
    ensures Later(s, After(cfg, s, step))
  {
  }

  lemma ReaderStepIsLater(cfg: Config, s: State, step: Step)
    requires Enabled(cfg, s, step)
    requires !step.WriteBegin? && !step.DeviceApply? && !step.WriteEnd? && !step.Enter? && !step.Evolve?
    ensures Later(s, After(cfg, s, step))
  {
    var t := After(cfg, s, step);
    assert t.gen == s.gen && t.log == s.log && t.writers == s.writers && t.readers.Keys == s.readers.Keys;
  }

  lemma LaterKeepsNotBefore(s: State, t: State, g: nat, at: nat)
    requires Later(s, t) && g <= s.gen && NotBefore(s, g, at)
    ensures NotBefore(t, g, at)
  {
  }

  lemma LaterKeepsSample(s: State, t: State, c: Cell, g: nat, x: Sample)
    requires Later(s, t) && g <= s.gen && SampleOk(s, c, g, x)
    ensures SampleOk(t, c, g, x)
  {
  }

  // ---------- each step keeps the invariant ----------

  lemma ReplyIsOk(s: State, r: ReadReq, g: nat, at: nat)
    requires NotBefore(s, g, at)
    ensures forall i :: 0 <= i < r.qty ==> SampleOk(s, CellOf(r, i), g, Reply(s.log, r, at)[i])
  {
  }

  lemma LookupIsOk(s: State, r: ReadReq, samples: seq<Sample>)
    requires TableOk(s) && ValidRead(r) && E.AllPresent(s.table, r.slave, r.fc, r.start, r.qty)
    requires samples == E.Values(s.table, r.slave, r.fc, r.start, r.qty)
    ensures forall i :: 0 <= i < r.qty ==> SampleOk(s, CellOf(r, i), s.gen, samples[i])
  {
    forall i | 0 <= i < r.qty ensures SampleOk(s, CellOf(r, i), s.gen, samples[i]) {
      var c := CellOf(r, i);
      E.KeyOfAddress(r.slave, r.fc, r.start, r.start + i);
      assert E.KeyAt(r.slave, r.fc, r.start, i) == CellKey(c) && ValidCell(c);
    }
  }

  /** Storing a reply that is good for the current generation keeps every cell good. */
  lemma StoredCellOk(s: State, r: ReadReq, at: nat, now: int, ttl: int, c: Cell)
    requires TableOk(s) && ValidRead(r) && NotBefore(s, s.gen, at) && ValidCell(c)
    requires CellKey(c) in E.SetRange(s.table, r.slave, r.fc, r.start, Reply(s.log, r, at), now, ttl)
    ensures SampleOk(s, c, s.gen, E.SetRange(s.table, r.slave, r.fc, r.start, Reply(s.log, r, at), now, ttl)[CellKey(c)].data)
  {
    var reply := Reply(s.log, r, at);
    E.SetRangeEffect(s.table, r.slave, r.fc, r.start, reply, now, ttl);
    E.RangeKeysExact(r.slave, r.fc, r.start, r.qty, c.slave, c.fc, c.addr);
    if CellKey(c) in E.RangeKeys(r.slave, r.fc, r.start, r.qty) {
      var i := c.addr - r.start;
      E.KeyOfAddress(r.slave, r.fc, r.start, c.addr);
      assert CellOf(r, i) == c;
      assert reply[i] == Sample(s.log[at](c), at);
    }
  }

  lemma SameHistorySample(s: State, t: State, c: Cell, g: nat, x: Sample)
    requires t.log == s.log && t.writers == s.writers && SampleOk(s, c, g, x)
    ensures SampleOk(t, c, g, x)
  {
  }

  lemma StoreKeepsTable(cfg: Config, s: State, step: Step)
    requires Enabled(cfg, s, step) && step.Store? && TableOk(s) && ReaderOk(s, step.p)
    ensures TableOk(After(cfg, s, step))
  {
    var t, r := After(cfg, s, step), s.readers[step.p];
    forall c | ValidCell(c) && CellKey(c) in t.table ensures SampleOk(t, c, t.gen, t.table[CellKey(c)].data) {
      if step.decomposes && s.gen == r.gen { StoredCellOk(s, r.req, r.fetch.at, s.now, cfg.ttl, c); }
      SameHistorySample(s, t, c, s.gen, t.table[CellKey(c)].data);
    }
  }

  /** A write boundary: everything the moved generation newly counts as ended has been deleted. */
  lemma BoundaryKeepsTable(cfg: Config, s: State, step: Step)
    requires Enabled(cfg, s, step) && (step.WriteBegin? || step.WriteEnd?) && TableOk(s)
    requires forall w :: w in s.writers ==> WriterOk(s, w)
    ensures TableOk(After(cfg, s, step))
  {
    var t := After(cfg, s, step);
    var x := t.writers[step.w];
    forall c | ValidCell(c) && CellKey(c) in t.table ensures SampleOk(t, c, t.gen, t.table[CellKey(c)].data) {
      E.InvalidateEffect(s.table, x.slave, x.start, x.qty, c.slave, c.fc, c.addr);
      var d := s.table[CellKey(c)].data;
      assert SampleOk(s, c, s.gen, d);
      forall w | w in t.writers && Covers(t.writers[w], c)
        ensures Floor(t.writers[w], t.gen) <= d.at
      {
        assert w != step.w;
        assert w in s.writers && WriterOk(s, w);
      }
    }
  }

  lemma StepKeepsTable(cfg: Config, s: State, step: Step)
    requires Enabled(cfg, s, step) && TableOk(s) && (forall w :: w in s.writers ==> WriterOk(s, w))
    requires step.Store? ==> ReaderOk(s, step.p)
    ensures TableOk(After(cfg, s, step))
  {
    if step.Store? {
      StoreKeepsTable(cfg, s, step);
    } else if step.WriteBegin? || step.WriteEnd? {
      BoundaryKeepsTable(cfg, s, step);
    } else {
      StepIsLater(cfg, s, step);
      OtherStepsOnlyDrop(cfg, s, step);
      DroppingKeepsTable(s, After(cfg, s, step));
    }
  }

  lemma DroppingKeepsTable(s: State, t: State)
    requires TableOk(s) && Later(s, t) && t.gen == s.gen
    requires forall k :: k in t.table ==> k in s.table && t.table[k] == s.table[k]
    ensures TableOk(t)
  {
    forall c | ValidCell(c) && CellKey(c) in t.table ensures SampleOk(t, c, t.gen, t.table[CellKey(c)].data) {
      LaterKeepsSample(s, t, c, s.gen, s.table[CellKey(c)].data);
    }
  }

  /** Away from stores and write boundaries entries can only disappear. */
  lemma OtherStepsOnlyDrop(cfg: Config, s: State, step: Step)
    requires Enabled(cfg, s, step) && !step.Store? && !step.WriteBegin? && !step.WriteEnd?
    ensures After(cfg, s, step).gen == s.gen
    ensures forall k :: k in After(cfg, s, step).table ==> k in s.table && After(cfg, s, step).table[k] == s.table[k]
  {
  }

  /** A value handed out by the coalescing layer and fetched by q, a reader of the same generation
      and range, was read no earlier than any write that ended by that generation. */
  lemma CoalescedValueIsOk(s: State, p: nat, q: nat, at: nat)
    requires p in s.co.callers && q in s.co.callers && CallerLinked(s, p) && CallerLinked(s, q) && ReaderOk(s, q)
    requires s.co.callers[q].key == s.co.callers[p].key && s.co.callers[q].fetched == Some(C.Value(at))
    ensures NotBefore(s, s.readers[p].gen, at)
  {
    var x, y := s.readers[q], s.readers[p];
    RangeKeyInjective(x.gen, x.req.slave, x.req.fc, x.req.start, x.req.qty, y.gen, y.req.slave, y.req.fc, y.req.start, y.req.qty);
  }

  lemma EnterKept(cfg: Config, s: State, step: Step)
    requires Enabled(cfg, s, step) && step.Enter? && TableOk(s)
    ensures ReaderOk(After(cfg, s, step), step.p)
  {
    var t, r := After(cfg, s, step), step.req;
    var served := t.readers[step.p].served;
    if served.Answer? {
      LookupIsOk(s, r, served.samples);
      forall i | 0 <= i < r.qty ensures SampleOk(t, CellOf(r, i), s.gen, served.samples[i]) {
        assert SampleOk(s, CellOf(r, i), s.gen, served.samples[i]);
      }
    }
  }

  lemma FetchKept(cfg: Config, s: State, step: Step)
    requires Enabled(cfg, s, step) && (step.DeviceRead? || step.DeviceFail? || step.Store?) && ReaderOk(s, step.p)
    requires forall w :: w in s.writers ==> WriterOk(s, w)
    ensures ReaderOk(After(cfg, s, step), step.p)
  {
    var t, r := After(cfg, s, step), s.readers[step.p];
    assert t.writers == s.writers && t.log == s.log && t.gen == s.gen;
    if step.DeviceRead? { assert NotBefore(t, r.gen, |s.log| - 1); }
    if step.Store? { assert NotBefore(t, r.gen, r.fetch.at); }
    if r.served.Answer? {
      forall i | 0 <= i < r.req.qty ensures SampleOk(t, CellOf(r.req, i), r.gen, r.served.samples[i]) {
        assert SampleOk(s, CellOf(r.req, i), r.gen, r.served.samples[i]);
      }
    }
  }

  /** What is recent enough for one generation is recent enough for an earlier one. */
  lemma OkForLess(s: State, c: Cell, h: nat, g: nat, x: Sample)
    requires SampleOk(s, c, h, x) && g <= h && forall w :: w in s.writers ==> WriterOk(s, w)
    ensures SampleOk(s, c, g, x)
  {
    forall w | w in s.writers && Covers(s.writers[w], c) ensures Floor(s.writers[w], g) <= x.at {
      assert WriterOk(s, w) && Floor(s.writers[w], g) <= Floor(s.writers[w], h);
    }
  }

  lemma FinishKept(cfg: Config, s: State, step: Step)
    requires Enabled(cfg, s, step) && step.Finish? && ReaderOk(s, step.p) && TableOk(s)
    requires forall w :: w in s.writers ==> WriterOk(s, w)
    requires s.co.callers[step.p].phase.out.Value? ==> NotBefore(s, s.readers[step.p].gen, s.co.callers[step.p].phase.out.data)
    ensures ReaderOk(After(cfg, s, step), step.p)
  {
    var t, r, out := After(cfg, s, step), s.readers[step.p], s.co.callers[step.p].phase.out;
    var served := t.readers[step.p].served;
    if out.Value? {
      ReplyIsOk(s, r.req, r.gen, out.data);
    } else if served.Answer? {
      LookupIsOk(s, r.req, served.samples);
      forall i | 0 <= i < r.req.qty ensures SampleOk(s, CellOf(r.req, i), r.gen, served.samples[i]) {
        OkForLess(s, CellOf(r.req, i), s.gen, r.gen, served.samples[i]);
      }
    }
    if served.Answer? {
      forall i | 0 <= i < r.req.qty ensures SampleOk(t, CellOf(r.req, i), r.gen, served.samples[i]) {
        assert SampleOk(s, CellOf(r.req, i), r.gen, served.samples[i]);
      }
    }
  }

  lemma FinishStep(cfg: Config, s: State, step: Step)
    requires Inv(s) && Enabled(cfg, s, step) && step.Finish?
    ensures ReaderOk(After(cfg, s, step), step.p)
  {
    if s.co.callers[step.p].phase.out.Value? {
      var q := C.ReturnedWasFetched(s.co, step.p);
      assert CallerLinked(s, q) && CallerLinked(s, step.p) && ReaderOk(s, q);
      CoalescedValueIsOk(s, step.p, q, s.co.callers[step.p].phase.out.data);
    }
    FinishKept(cfg, s, step);
  }

  lemma BystanderKept(s: State, t: State, p: nat)
    requires Later(s, t) && p in s.readers && ReaderOk(s, p) && p in t.readers && t.readers[p] == s.readers[p]
    ensures ReaderOk(t, p)
  {
    var r := s.readers[p];
    if r.fetch.Got? || r.fetch.Stored? { LaterKeepsNotBefore(s, t, r.gen, r.fetch.at); }
    if r.served.Answer? {
      forall i | 0 <= i < r.req.qty ensures SampleOk(t, CellOf(r.req, i), r.gen, r.served.samples[i]) {
        LaterKeepsSample(s, t, CellOf(r.req, i), r.gen, r.served.samples[i]);
      }
    }
  }

  lemma LinksKept(cfg: Config, s: State, step: Step, p: nat)
    requires Enabled(cfg, s, step) && p in After(cfg, s, step).co.callers
    requires p in s.co.callers ==> CallerLinked(s, p) && C.HistoryOk(s.co.callers[p])
    ensures CallerLinked(After(cfg, s, step), p)
  {
    if step.Coalesce? {
      OtherStepsKeepFetched(s.co, step.step, p);
    } else if step.Enter? {
      EnterKeepsLinks(cfg, s, step, p);
    } else if step.FetchDone? {
      FetchDoneKeepsLinks(cfg, s, step, p);
    } else {
      FetchStepsKeepLinks(cfg, s, step, p);
    }
  }

  lemma EnterKeepsLinks(cfg: Config, s: State, step: Step, p: nat)
    requires Enabled(cfg, s, step) && step.Enter? && p in After(cfg, s, step).co.callers
    requires p in s.co.callers ==> CallerLinked(s, p)
    ensures CallerLinked(After(cfg, s, step), p)
  {
  }

  lemma FetchDoneKeepsLinks(cfg: Config, s: State, step: Step, p: nat)
    requires Enabled(cfg, s, step) && step.FetchDone? && p in s.co.callers && CallerLinked(s, p)
    ensures p in After(cfg, s, step).co.callers && CallerLinked(After(cfg, s, step), p)
  {
    var t := After(cfg, s, step);
    assert t.readers == s.readers && t.co.callers[p].key == s.co.callers[p].key;
  }

  lemma FetchStepsKeepLinks(cfg: Config, s: State, step: Step, p: nat)
    requires Enabled(cfg, s, step) && !step.Coalesce? && !step.Enter? && !step.FetchDone?
    requires p in s.co.callers && CallerLinked(s, p) && C.HistoryOk(s.co.callers[p])
    ensures p in After(cfg, s, step).co.callers && CallerLinked(After(cfg, s, step), p)
  {
    assert After(cfg, s, step).co == s.co;
  }

  lemma OtherStepsKeepFetched(co: C.State, cs: C.Step, p: nat)
    requires C.Enabled(co, cs) && !cs.Arrive? && !cs.FetchReturn? && p in C.After(co, cs).callers
    ensures p in co.callers && C.After(co, cs).callers[p].key == co.callers[p].key
    ensures C.After(co, cs).callers[p].fetched == co.callers[p].fetched
  {
  }

  lemma CoalescingKept(cfg: Config, s: State, step: Step)
    requires C.Inv(s.co) && Enabled(cfg, s, step)
    ensures C.Inv(After(cfg, s, step).co)
  {
    var t := After(cfg, s, step);
    match step
    case Enter(p, req) => if t.co != s.co { C.StepKeepsInv(s.co, C.Arrive(p, KeyOf(t.readers[p]))); }
    case Coalesce(cs) => C.StepKeepsInv(s.co, cs);
    case FetchDone(p) =>
      var f := s.readers[p].fetch;
      C.StepKeepsInv(s.co, C.FetchReturn(p, if f.Stored? then C.Value(f.at) else C.Error(f.failure)));
    case _ =>
  }

  lemma BystanderStep(cfg: Config, s: State, step: Step, p: nat)
    requires Enabled(cfg, s, step) && (forall w :: w in s.writers ==> WriterOk(s, w))
    requires p in s.readers && ReaderOk(s, p)
    requires p in After(cfg, s, step).readers && After(cfg, s, step).readers[p] == s.readers[p]
    ensures ReaderOk(After(cfg, s, step), p)
  {
    StepIsLater(cfg, s, step);
    BystanderKept(s, After(cfg, s, step), p);
  }

  lemma OnlyMoversChange(cfg: Config, s: State, step: Step, p: nat)
    requires Enabled(cfg, s, step) && p in After(cfg, s, step).readers
    ensures (p in s.readers && After(cfg, s, step).readers[p] == s.readers[p])
            || ((step.Enter? || step.Finish? || step.DeviceRead? || step.DeviceFail? || step.Store?) && p == step.p)
    ensures p !in s.readers ==> step.Enter?
  {
  }

  lemma ReadersKept(cfg: Config, s: State, step: Step, p: nat)
    requires Inv(s) && Enabled(cfg, s, step) && p in After(cfg, s, step).readers
    ensures ReaderOk(After(cfg, s, step), p)
  {
    OnlyMoversChange(cfg, s, step, p);
    if p in s.readers && After(cfg, s, step).readers[p] == s.readers[p] {
      BystanderStep(cfg, s, step, p);
    } else if step.Enter? {
      EnterKept(cfg, s, step);
    } else if step.Finish? {
      FinishStep(cfg, s, step);
    } else {
      FetchKept(cfg, s, step);
    }
  }

  lemma WritersKept(cfg: Config, s: State, step: Step, w: nat)
    requires Enabled(cfg, s, step) && w in After(cfg, s, step).writers && (w in s.writers ==> WriterOk(s, w))
    ensures WriterOk(After(cfg, s, step), w)
  {
  }

  lemma StepKeepsInv(cfg: Config, s: State, step: Step)
    requires Inv(s) && Enabled(cfg, s, step)
    ensures Inv(After(cfg, s, step))
  {
    var t := After(cfg, s, step);
    StepKeepsTable(cfg, s, step);
    CoalescingKept(cfg, s, step);
    forall p | p in t.readers ensures ReaderOk(t, p) { ReadersKept(cfg, s, step, p); }
    forall w | w in t.writers ensures WriterOk(t, w) { WritersKept(cfg, s, step, w); }
    forall p | p in t.co.callers ensures CallerLinked(t, p) {
      assert p in s.co.callers ==> C.CallerOk(s.co, p);
      LinksKept(cfg, s, step, p);
    }
  }

  lemma {:induction false} RunKeepsInv(cfg: Config, s: State, steps: seq<Step>, t: State)
    requires Inv(s) && Reaches(cfg, s, steps, t)
    ensures Inv(t) && Later(s, t)
    decreases |steps|
  {
    if steps != [] {
      var m := After(cfg, s, steps[0]);
      StepKeepsInv(cfg, s, steps[0]);
      StepIsLater(cfg, s, steps[0]);
      RunKeepsInv(cfg, m, steps[1..], t);
      LaterTransitive(s, m, t);
    }
  }

  lemma LaterTransitive(s: State, m: State, t: State)
    requires Later(s, m) && Later(m, t)
    ensures Later(s, t)
  {
  }

  // ---------- main results ----------

  /** In every reachable state of every interleaving, every cached entry, fresh or expired, was
      read from the device no earlier than each applied write to its slave and address, except
      for writes still between their two invalidations; and it is what the device held then. */
  lemma CacheCoherence(cfg: Config, device: Device, steps: seq<Step>, t: State, c: Cell, w: nat)
    requires Reaches(cfg, Start(device), steps, t)
    requires ValidCell(c) && CellKey(c) in t.table
    requires w in t.writers && t.writers[w].applied.Some? && Covers(t.writers[w], c)
    ensures var x := t.table[CellKey(c)].data;
      && x.at < |t.log| && x.value == t.log[x.at](c)
      && (t.writers[w].applied.value <= x.at || t.writers[w].ended.None?)
  {
    RunKeepsInv(cfg, Start(device), steps, t);
    assert WriterOk(t, w);
    assert SampleOk(t, c, t.gen, t.table[CellKey(c)].data);
  }

  /** From its first invalidation on, no cached entry that a write covers is older than its beginning:
      what was read before is gone, and what is still being fetched from before is not stored. */
  lemma NothingFromBeforeTheWrite(cfg: Config, device: Device, steps: seq<Step>, t: State, c: Cell, w: nat)
    requires Reaches(cfg, Start(device), steps, t)
    requires ValidCell(c) && CellKey(c) in t.table && w in t.writers && Covers(t.writers[w], c)
    ensures t.writers[w].begunAt <= t.table[CellKey(c)].data.at
  {
    RunKeepsInv(cfg, Start(device), steps, t);
    assert WriterOk(t, w);
    assert SampleOk(t, c, t.gen, t.table[CellKey(c)].data);
  }

  /** A read that enters after a write began, even if the write is still under way or will fail, gets
      nothing from before its beginning for an address the write covers. */
  lemma NothingReadFromBeforeTheWrite(cfg: Config, device: Device, before: seq<Step>, s: State, after: seq<Step>, t: State,
                                      w: nat, p: nat, i: nat)
    requires Reaches(cfg, Start(device), before, s) && Reaches(cfg, s, after, t)
    requires w in s.writers && p !in s.readers && p in t.readers && t.readers[p].served.Answer?
    requires i < t.readers[p].req.qty && Covers(s.writers[w], CellOf(t.readers[p].req, i))
    ensures i < |t.readers[p].served.samples| && s.writers[w].begunAt <= t.readers[p].served.samples[i].at
  {
    RunKeepsInv(cfg, Start(device), before, s);
    RunKeepsInv(cfg, s, after, t);
    assert WriterOk(s, w) && WriterOk(t, w);
    assert ReaderOk(t, p);
    assert SampleOk(t, CellOf(t.readers[p].req, i), t.readers[p].gen, t.readers[p].served.samples[i]);
  }

  /** Read your writes: a read that enters after a write covering one of its addresses returned
      answers, for that address, with a value the device held no earlier than the write took
      effect, whichever way it was served. */
  lemma ReadYourWrites(cfg: Config, device: Device, before: seq<Step>, s: State, after: seq<Step>, t: State, w: nat, p: nat, i: nat)
    requires Reaches(cfg, Start(device), before, s) && Reaches(cfg, s, after, t)
    requires w in s.writers && s.writers[w].ended.Some? && s.writers[w].applied.Some?
    requires p !in s.readers && p in t.readers && t.readers[p].served.Answer?
    requires i < t.readers[p].req.qty && Covers(s.writers[w], CellOf(t.readers[p].req, i))
    ensures i < |t.readers[p].served.samples|
    ensures var x := t.readers[p].served.samples[i];
      && s.writers[w].applied.value <= x.at < |t.log|
      && x.value == t.log[x.at](CellOf(t.readers[p].req, i))
  {
    RunKeepsInv(cfg, Start(device), before, s);
    RunKeepsInv(cfg, s, after, t);
    assert WriterOk(s, w);
    assert ReaderOk(t, p);
    assert SampleOk(t, CellOf(t.readers[p].req, i), t.readers[p].gen, t.readers[p].served.samples[i]);
    assert EndedBy(t.writers[w], t.readers[p].gen);
  }

  /** In particular: if nothing but that write has changed the address since, the read returns what
      the write left there. */
  lemma WrittenValueIsSeen(cfg: Config, device: Device, before: seq<Step>, s: State, after: seq<Step>, t: State,
                           w: nat, p: nat, i: nat, value: int)
    requires Reaches(cfg, Start(device), before, s) && Reaches(cfg, s, after, t)
    requires w in s.writers && s.writers[w].ended.Some? && s.writers[w].applied.Some?
    requires p !in s.readers && p in t.readers && t.readers[p].served.Answer?
    requires i < t.readers[p].req.qty && Covers(s.writers[w], CellOf(t.readers[p].req, i))
    requires forall k :: s.writers[w].applied.value <= k < |t.log| ==> t.log[k](CellOf(t.readers[p].req, i)) == value
    ensures i < |t.readers[p].served.samples| && t.readers[p].served.samples[i].value == value
  {
    ReadYourWrites(cfg, device, before, s, after, t, w, p, i);
  }

  // ---------- cleanup passes are unobservable ----------

  /** The steps of a run but for its cleanup passes. */
  function WithoutSweeps(steps: seq<Step>): seq<Step> {
    if steps == [] then []
    else if steps[0].Sweep? then WithoutSweeps(steps[1..])
    else [steps[0]] + WithoutSweeps(steps[1..])
  }

  /** Two states that differ at most in entries nobody can be served any more. */
  ghost predicate Twins(cfg: Config, s: State, s': State) {
    s' == s.(table := s'.table) && E.Alike(s.table, s'.table, cfg.serveStale, s.now)
  }

  lemma TwinsEnable(cfg: Config, s: State, s': State, step: Step)
    requires Twins(cfg, s, s') && Enabled(cfg, s, step)
    ensures Enabled(cfg, s', step)
  {
  }

  lemma InvalidateAlike(m: E.Table<Sample>, n: E.Table<Sample>, keepStale: bool, at: int, slave: nat, start: nat, qty: nat)
    requires E.Alike(m, n, keepStale, at)
    ensures E.Alike(E.Invalidate(m, slave, start, qty), E.Invalidate(n, slave, start, qty), keepStale, at)
  {
    var ks := E.RangeKeys(slave, 1, start, qty) + E.RangeKeys(slave, 2, start, qty) + E.RangeKeys(slave, 3, start, qty)
              + E.RangeKeys(slave, 4, start, qty);
    assert E.Invalidate(m, slave, start, qty) == m - ks && E.Invalidate(n, slave, start, qty) == n - ks;
  }

  /** Steps that read the table see the same in both states. */
  lemma TwinsRead(cfg: Config, s: State, s': State, step: Step)
    requires Twins(cfg, s, s') && Enabled(cfg, s, step) && Enabled(cfg, s', step) && (step.Enter? || step.Finish?)
    ensures Twins(cfg, After(cfg, s, step), After(cfg, s', step))
  {
    if step.Enter? && !cfg.serveStale {
      var r := step.req;
      E.GetRangeAlike(s.table, s'.table, s.now, r.slave, r.fc, r.start, r.qty);
    }
  }

  /** So do stores and invalidations keep the two states alike. */
  lemma TwinsStore(cfg: Config, s: State, s': State, step: Step)
    requires Twins(cfg, s, s') && Enabled(cfg, s, step) && Enabled(cfg, s', step) && step.Store?
    ensures Twins(cfg, After(cfg, s, step), After(cfg, s', step))
  {
    var r := s.readers[step.p];
    E.SetRangeAlike(s.table, s'.table, cfg.serveStale, s.now, r.req.slave, r.req.fc, r.req.start, Reply(s.log, r.req, r.fetch.at), cfg.ttl);
  }

  lemma TwinsBegin(cfg: Config, s: State, s': State, step: Step)
    requires Twins(cfg, s, s') && Enabled(cfg, s, step) && Enabled(cfg, s', step) && step.WriteBegin?
    ensures Twins(cfg, After(cfg, s, step), After(cfg, s', step))
  {
    InvalidateAlike(s.table, s'.table, cfg.serveStale, s.now, step.slave, step.start, step.qty);
  }

  lemma TwinsEnd(cfg: Config, s: State, s': State, step: Step)
    requires Twins(cfg, s, s') && Enabled(cfg, s, step) && Enabled(cfg, s', step) && step.WriteEnd?
    ensures Twins(cfg, After(cfg, s, step), After(cfg, s', step))
  {
    var x := s.writers[step.w];
    InvalidateAlike(s.table, s'.table, cfg.serveStale, s.now, x.slave, x.start, x.qty);
  }

  lemma TwinsStep(cfg: Config, s: State, s': State, step: Step)
    requires Twins(cfg, s, s') && Enabled(cfg, s, step) && Enabled(cfg, s', step) && !step.Sweep?
    ensures Twins(cfg, After(cfg, s, step), After(cfg, s', step))
  {
    if step.Enter? || step.Finish? {
      TwinsRead(cfg, s, s', step);
    } else if step.Store? {
      TwinsStore(cfg, s, s', step);
    } else if step.WriteBegin? {
      TwinsBegin(cfg, s, s', step);
    } else if step.WriteEnd? {
      TwinsEnd(cfg, s, s', step);
    }
  }

  lemma SweepKeepsTwins(cfg: Config, s: State, s': State)
    requires Twins(cfg, s, s')
    ensures Twins(cfg, After(cfg, s, Sweep), s')
  {
  }

  lemma {:induction false} SweepsChangeNothing(cfg: Config, s: State, s': State, steps: seq<Step>, t: State) returns (t': State)
    requires Twins(cfg, s, s') && Reaches(cfg, s, steps, t)
    ensures Reaches(cfg, s', WithoutSweeps(steps), t') && Twins(cfg, t, t')
    decreases |steps|
  {
    if steps == [] {
      t' := s';
    } else if steps[0].Sweep? {
      SweepKeepsTwins(cfg, s, s');
      t' := SweepsChangeNothing(cfg, After(cfg, s, Sweep), s', steps[1..], t);
    } else {
      TwinsEnable(cfg, s, s', steps[0]);
      TwinsStep(cfg, s, s', steps[0]);
      t' := SweepsChangeNothing(cfg, After(cfg, s, steps[0]), After(cfg, s', steps[0]), steps[1..], t);
      var rest := WithoutSweeps(steps[1..]);
      assert ([steps[0]] + rest)[1..] == rest;
    }
  }

  /** Drop the cleanup passes of any run, of any interleaving: what is left is a run, and every reader in it
      is served exactly the same, has fetched the same, and every write went the same way. */
  lemma CleanupIsUnobservable(cfg: Config, device: Device, steps: seq<Step>, t: State) returns (t': State)
    requires Reaches(cfg, Start(device), steps, t)
    ensures Reaches(cfg, Start(device), WithoutSweeps(steps), t')
    ensures t'.readers == t.readers && t'.writers == t.writers && t'.log == t.log && t'.gen == t.gen && t'.co == t.co
  {
    t' := SweepsChangeNothing(cfg, Start(device), Start(device), steps, t);
  }
}
