/**
 The per-register cache as a value: what `GetRange`, `GetRangeStale`, `SetRange`, `DeleteRange`
 and `cleanupOnce` do to the entries map.  The payload type is a parameter: bytes for the cache
 itself, device samples for the coherence protocol.
 */
module Entries {
  import opened Wrappers
  import opened Keys

  datatype Entry<+T> = Entry(data: T, timestamp: int, ttl: int)

  type Table<T> = map<string, Entry<T>>

  const ADDRESSES := 65536

  predicate Expired<T>(e: Entry<T>, now: int) { now - e.timestamp > e.ttl }

  /** Key of the i-th address of a range; the address is a uint16 and wraps. */
  function KeyAt(slave: nat, fc: nat, start: nat, i: nat): string { RegKey(slave, fc, (start + i) % ADDRESSES) }

  predicate AllPresent<T>(m: Table<T>, slave: nat, fc: nat, start: nat, qty: nat) {
    forall i :: 0 <= i < qty ==> KeyAt(slave, fc, start, i) in m
  }

  predicate AllFresh<T>(m: Table<T>, slave: nat, fc: nat, start: nat, qty: nat, now: int) {
    forall i :: 0 <= i < qty ==> KeyAt(slave, fc, start, i) in m && !Expired(m[KeyAt(slave, fc, start, i)], now)
  }

  function Values<T>(m: Table<T>, slave: nat, fc: nat, start: nat, qty: nat): seq<T>
    requires AllPresent(m, slave, fc, start, qty)
  {
    seq(qty, i requires 0 <= i < qty => m[KeyAt(slave, fc, start, i)].data)
  }

  function GetRange<T>(m: Table<T>, slave: nat, fc: nat, start: nat, qty: nat, now: int): Option<seq<T>> {
    if qty > 0 && AllFresh(m, slave, fc, start, qty, now) then Some(Values(m, slave, fc, start, qty)) else None
  }

  function GetRangeStale<T>(m: Table<T>, slave: nat, fc: nat, start: nat, qty: nat): Option<seq<T>> {
    if qty > 0 && AllPresent(m, slave, fc, start, qty) then Some(Values(m, slave, fc, start, qty)) else None
  }

  function SetRange<T>(m: Table<T>, slave: nat, fc: nat, start: nat, values: seq<T>, now: int, ttl: int): Table<T> {
    if values == [] then m else
    var n := |values| - 1;
    SetRange(m, slave, fc, start, values[..n], now, ttl)[KeyAt(slave, fc, start, n) := Entry(values[n], now, ttl)]
  }

  function RangeKeys(slave: nat, fc: nat, start: nat, qty: nat): set<string> {
    set i | 0 <= i < qty :: KeyAt(slave, fc, start, i)
  }

  function DeleteRange<T>(m: Table<T>, slave: nat, fc: nat, start: nat, qty: nat): Table<T> {
    m - RangeKeys(slave, fc, start, qty)
  }

  /** `invalidateCache`: the written range is deleted under all four read function codes. */
  function Invalidate<T>(m: Table<T>, slave: nat, start: nat, qty: nat): Table<T> {
    DeleteRange(DeleteRange(DeleteRange(DeleteRange(m, slave, 1, start, qty), slave, 2, start, qty), slave, 3, start, qty),
                slave, 4, start, qty)
  }

  function Cleanup<T>(m: Table<T>, keepStale: bool, now: int): Table<T> {
    if keepStale then m else map k | k in m && !Expired(m[k], now) :: m[k]
  }

  // ---------- ranges touch exactly the named addresses ----------

  /** The keys of a range that does not run past the last address are those of its addresses. */
  lemma RangeKeysExact(slave: nat, fc: nat, start: nat, qty: nat, s: nat, f: nat, a: nat)
    requires start + qty <= ADDRESSES && a < ADDRESSES
    ensures RegKey(s, f, a) in RangeKeys(slave, fc, start, qty) <==> s == slave && f == fc && start <= a < start + qty
  {
    if RegKey(s, f, a) in RangeKeys(slave, fc, start, qty) {
      var i :| 0 <= i < qty && KeyAt(slave, fc, start, i) == RegKey(s, f, a);
      RegKeyInjective(slave, fc, (start + i) % ADDRESSES, s, f, a);
    }
    if s == slave && f == fc && start <= a < start + qty {
      assert KeyAt(slave, fc, start, a - start) == RegKey(s, f, a);
    }
  }

  lemma KeyOfAddress(slave: nat, fc: nat, start: nat, a: nat)
    requires start <= a < ADDRESSES
    ensures KeyAt(slave, fc, start, a - start) == RegKey(slave, fc, a)
  {
  }

  /** What is left after an invalidation is unchanged, and nothing of the written range is left. */
  lemma InvalidateEffect<T>(m: Table<T>, slave: nat, start: nat, qty: nat, s: nat, f: nat, a: nat)
    requires start + qty <= ADDRESSES && 1 <= f <= 4 && a < ADDRESSES
    ensures var r := Invalidate(m, slave, start, qty);
      && (RegKey(s, f, a) in r <==> RegKey(s, f, a) in m && !(s == slave && start <= a < start + qty))
      && (RegKey(s, f, a) in r ==> r[RegKey(s, f, a)] == m[RegKey(s, f, a)])
  {
    RangeKeysExact(slave, 1, start, qty, s, f, a);
    RangeKeysExact(slave, 2, start, qty, s, f, a);
    RangeKeysExact(slave, 3, start, qty, s, f, a);
    RangeKeysExact(slave, 4, start, qty, s, f, a);
  }

  /** After an invalidation, no range that it touches can be served, fresh or stale. */
  lemma TouchedIsMissing<T>(m: Table<T>, slave: nat, start: nat, qty: nat, fc: nat, from: nat, n: nat, a: nat, now: int)
    requires start <= a < start + qty <= ADDRESSES && from <= a < from + n <= ADDRESSES && 1 <= fc <= 4
    ensures GetRange(Invalidate(m, slave, start, qty), slave, fc, from, n, now).None?
    ensures GetRangeStale(Invalidate(m, slave, start, qty), slave, fc, from, n).None?
  {
    InvalidateEffect(m, slave, start, qty, slave, fc, a);
    KeyOfAddress(slave, fc, from, a);
    assert KeyAt(slave, fc, from, a - from) !in Invalidate(m, slave, start, qty);
  }

  lemma KeyAtInjective(slave: nat, fc: nat, start: nat, i: nat, k: nat)
    requires i < ADDRESSES && k < ADDRESSES && KeyAt(slave, fc, start, i) == KeyAt(slave, fc, start, k)
    ensures i == k
  {
    RegKeyInjective(slave, fc, (start + i) % ADDRESSES, slave, fc, (start + k) % ADDRESSES);
  }

  /** SetRange writes every key of its range with the same time, and no other key. */
  lemma {:induction false} SetRangeEffect<T>(m: Table<T>, slave: nat, fc: nat, start: nat, values: seq<T>, now: int, ttl: int)
    requires |values| <= ADDRESSES
    ensures var r := SetRange(m, slave, fc, start, values, now, ttl);
      && (forall i :: 0 <= i < |values| ==>
            KeyAt(slave, fc, start, i) in r && r[KeyAt(slave, fc, start, i)] == Entry(values[i], now, ttl))
      && (forall k :: k !in RangeKeys(slave, fc, start, |values|) ==> (k in r <==> k in m) && (k in m ==> r[k] == m[k]))
    decreases |values|
  {
    if values != [] {
      var n := |values| - 1;
      SetRangeEffect(m, slave, fc, start, values[..n], now, ttl);
      forall i | 0 <= i < n ensures KeyAt(slave, fc, start, i) != KeyAt(slave, fc, start, n) {
        if KeyAt(slave, fc, start, i) == KeyAt(slave, fc, start, n) { KeyAtInjective(slave, fc, start, i, n); }
      }
      assert RangeKeys(slave, fc, start, |values|) == RangeKeys(slave, fc, start, n) + {KeyAt(slave, fc, start, n)};
    }
  }

  lemma ShiftKey(slave: nat, fc: nat, start: nat, from: nat, i: nat)
    ensures KeyAt(slave, fc, start + from, i) == KeyAt(slave, fc, start, from + i)
  {
    assert start + from + i == start + (from + i);
  }

  /** Where a sub-range of a stored range finds its entries. */
  lemma StoredSubRange<T>(m: Table<T>, slave: nat, fc: nat, start: nat, values: seq<T>, now: int, ttl: int, from: nat, qty: nat, first: nat)
    requires |values| <= ADDRESSES && from + qty <= |values| && first == start + from
    ensures var r := SetRange(m, slave, fc, start, values, now, ttl);
      forall i :: 0 <= i < qty ==> KeyAt(slave, fc, first, i) in r && r[KeyAt(slave, fc, first, i)] == Entry(values[from + i], now, ttl)
  {
    SetRangeEffect(m, slave, fc, start, values, now, ttl);
    var r := SetRange(m, slave, fc, start, values, now, ttl);
    forall i | 0 <= i < qty
      ensures KeyAt(slave, fc, first, i) in r && r[KeyAt(slave, fc, first, i)] == Entry(values[from + i], now, ttl)
    {
      ShiftKey(slave, fc, start, from, i);
    }
  }

  /** A stored range serves every sub-range for as long as the TTL lasts and nothing after; as stale data it
      serves them at any time, also after a cleanup pass that keeps stale entries. */
  lemma {:induction false} StoredRangeServesSubRange<T>(m: Table<T>, slave: nat, fc: nat, start: nat, values: seq<T>, now: int, ttl: int,
                                                        from: nat, qty: nat, later: int)
    requires |values| <= ADDRESSES && 0 < qty && from + qty <= |values|
    ensures GetRange(SetRange(m, slave, fc, start, values, now, ttl), slave, fc, start + from, qty, later)
            == if later - now <= ttl then Some(values[from..from + qty]) else None
    ensures GetRangeStale(SetRange(m, slave, fc, start, values, now, ttl), slave, fc, start + from, qty) == Some(values[from..from + qty])
    ensures GetRangeStale(Cleanup(SetRange(m, slave, fc, start, values, now, ttl), true, later), slave, fc, start + from, qty)
            == Some(values[from..from + qty])
  {
    var first := start + from;
    StoredSubRange(m, slave, fc, start, values, now, ttl, from, qty, first);
    var r := SetRange(m, slave, fc, start, values, now, ttl);
    assert AllPresent(r, slave, fc, first, qty);
    assert Values(r, slave, fc, first, qty) == values[from..from + qty];
    if later - now <= ttl {
      assert AllFresh(r, slave, fc, first, qty, later);
      assert Values(r, slave, fc, first, qty) == values[from..from + qty];
    } else {
      assert Expired(r[KeyAt(slave, fc, first, 0)], later);
    }
  }

  /** A cleanup pass removes exactly what is older than its TTL, and nothing if stale entries are kept. */
  lemma CleanupEffect<T>(m: Table<T>, keepStale: bool, now: int, k: string)
    ensures k in Cleanup(m, keepStale, now) <==> k in m && (keepStale || now - m[k].timestamp <= m[k].ttl)
    ensures k in Cleanup(m, keepStale, now) ==> Cleanup(m, keepStale, now)[k] == m[k]
  {
  }

  // ---------- cleanup passes are unobservable ----------

  datatype Op<T> =
    | Get(slave: nat, fc: nat, start: nat, qty: nat)
    | GetStale(slave: nat, fc: nat, start: nat, qty: nat)
    | Set(slave: nat, fc: nat, start: nat, values: seq<T>)
    | Delete(slave: nat, fc: nat, start: nat, qty: nat)
    | Sweep

  datatype Timed<T> = Timed(at: int, op: Op<T>)

  /** Time does not go back, and the proxy looks at expired entries only when it keeps them. */
  ghost predicate ProxyRun<T>(ops: seq<Timed<T>>, keepStale: bool) {
    && (forall i, k :: 0 <= i < k < |ops| ==> ops[i].at <= ops[k].at)
    && (forall i :: 0 <= i < |ops| && ops[i].op.GetStale? ==> keepStale)
  }

  function Perform<T>(m: Table<T>, t: Timed<T>, keepStale: bool, ttl: int): Table<T> {
    match t.op
    case Get(_, _, _, _) => m
    case GetStale(_, _, _, _) => m
    case Set(slave, fc, start, values) => SetRange(m, slave, fc, start, values, t.at, ttl)
    case Delete(slave, fc, start, qty) => DeleteRange(m, slave, fc, start, qty)
    case Sweep => Cleanup(m, keepStale, t.at)
  }

  function Answer<T>(m: Table<T>, t: Timed<T>): seq<Option<seq<T>>> {
    match t.op
    case Get(slave, fc, start, qty) => [GetRange(m, slave, fc, start, qty, t.at)]
    case GetStale(slave, fc, start, qty) => [GetRangeStale(m, slave, fc, start, qty)]
    case _ => []
  }

  /** Every answer given in the course of a run, in order. */
  function Answers<T>(m: Table<T>, ops: seq<Timed<T>>, keepStale: bool, ttl: int): seq<Option<seq<T>>>
    decreases |ops|
  {
    if ops == [] then []
    else Answer(m, ops[0]) + Answers(Perform(m, ops[0], keepStale, ttl), ops[1..], keepStale, ttl)
  }

  function WithoutSweeps<T>(ops: seq<Timed<T>>): seq<Timed<T>> {
    if ops == [] then []
    else if ops[0].op.Sweep? then WithoutSweeps(ops[1..])
    else [ops[0]] + WithoutSweeps(ops[1..])
  }

  /** The two tables agree on everything that may still be served from `now` on. */
  ghost predicate Alike<T>(m: Table<T>, n: Table<T>, keepStale: bool, now: int) {
    if keepStale then m == n
    else forall k :: AliveIn(m, k, now) || AliveIn(n, k, now) ==> k in m && k in n && m[k] == n[k]
  }

  ghost predicate AliveIn<T>(m: Table<T>, k: string, now: int) { k in m && !Expired(m[k], now) }

  lemma {:induction false} SetRangeAlike<T>(m: Table<T>, n: Table<T>, keepStale: bool, at: int,
                                            slave: nat, fc: nat, start: nat, values: seq<T>, ttl: int)
    requires Alike(m, n, keepStale, at)
    ensures Alike(SetRange(m, slave, fc, start, values, at, ttl), SetRange(n, slave, fc, start, values, at, ttl), keepStale, at)
    decreases |values|
  {
    if values != [] {
      SetRangeAlike(m, n, keepStale, at, slave, fc, start, values[..|values| - 1], ttl);
    }
  }

  lemma GetRangeAlike<T>(m: Table<T>, n: Table<T>, at: int, slave: nat, fc: nat, start: nat, qty: nat)
    requires Alike(m, n, false, at)
    ensures GetRange(m, slave, fc, start, qty, at) == GetRange(n, slave, fc, start, qty, at)
  {
    if AllFresh(m, slave, fc, start, qty, at) || AllFresh(n, slave, fc, start, qty, at) {
      forall i | 0 <= i < qty
        ensures AliveIn(m, KeyAt(slave, fc, start, i), at) && AliveIn(n, KeyAt(slave, fc, start, i), at)
        ensures m[KeyAt(slave, fc, start, i)] == n[KeyAt(slave, fc, start, i)]
      {
        var k := KeyAt(slave, fc, start, i);
        assert AliveIn(m, k, at) || AliveIn(n, k, at);
      }
      assert AllFresh(m, slave, fc, start, qty, at) && AllFresh(n, slave, fc, start, qty, at);
      assert Values(m, slave, fc, start, qty) == Values(n, slave, fc, start, qty);
    }
  }

  lemma PerformAlike<T>(m: Table<T>, n: Table<T>, t: Timed<T>, keepStale: bool, ttl: int)
    requires Alike(m, n, keepStale, t.at) && !t.op.Sweep? && (t.op.GetStale? ==> keepStale)
    ensures Answer(m, t) == Answer(n, t)
    ensures Alike(Perform(m, t, keepStale, ttl), Perform(n, t, keepStale, ttl), keepStale, t.at)
  {
    match t.op
    case Get(slave, fc, start, qty) => if !keepStale { GetRangeAlike(m, n, t.at, slave, fc, start, qty); }
    case GetStale(_, _, _, _) =>
    case Set(slave, fc, start, values) => SetRangeAlike(m, n, keepStale, t.at, slave, fc, start, values, ttl);
    case Delete(_, _, _, _) =>
  }

  /** From tables that agree on live entries, a run and the same run without its sweeps answer alike. */
  lemma {:induction false} SweepsDoNotMatter<T>(m: Table<T>, n: Table<T>, ops: seq<Timed<T>>, keepStale: bool, ttl: int)
    requires ProxyRun(ops, keepStale) && (ops != [] ==> Alike(m, n, keepStale, ops[0].at))
    ensures Answers(m, ops, keepStale, ttl) == Answers(n, WithoutSweeps(ops), keepStale, ttl)
    decreases |ops|
  {
    if ops != [] {
      var t, rest := ops[0], ops[1..];
      var m' := Perform(m, t, keepStale, ttl);
      if t.op.Sweep? {
        assert Alike(m', n, keepStale, t.at);
        if rest != [] { assert ops[0].at <= ops[1].at; }
        SweepsDoNotMatter(m', n, rest, keepStale, ttl);
      } else {
        PerformAlike(m, n, t, keepStale, ttl);
        if rest != [] { assert ops[0].at <= ops[1].at; }
        SweepsDoNotMatter(m', Perform(n, t, keepStale, ttl), rest, keepStale, ttl);
        assert WithoutSweeps(ops)[1..] == WithoutSweeps(rest);
      }
    }
  }

  /** Inserting or dropping cleanup passes anywhere in a run changes no answer. */
  lemma CleanupIsUnobservable<T>(m: Table<T>, ops: seq<Timed<T>>, ops': seq<Timed<T>>, keepStale: bool, ttl: int)
    requires ProxyRun(ops, keepStale) && ProxyRun(ops', keepStale) && WithoutSweeps(ops) == WithoutSweeps(ops')
    ensures Answers(m, ops, keepStale, ttl) == Answers(m, ops', keepStale, ttl)
  {
    SweepsDoNotMatter(m, m, ops, keepStale, ttl);
    SweepsDoNotMatter(m, m, ops', keepStale, ttl);
  }
}
