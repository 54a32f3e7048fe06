/**
 The cache object itself: entries hold references to byte buffers, which the operations copy on
 the way in and on the way out.  Every operation is proved against the table functions of
 Entries; the buffers it hands out or keeps are fresh, so that no caller shares memory with the
 cache or with another caller.  The clock is read once per operation and passed in.
 */
module CacheStore {
  import opened Wrappers
  import opened Bytes
  import opened Keys
  import E = Entries

  datatype Slot = Slot(data: array<byte>, timestamp: int, ttl: int)

  method CopyOf(a: array<byte>) returns (b: array<byte>)
    ensures fresh(b) && b[..] == a[..]
  {
    b := new byte[a.Length](i requires 0 <= i < a.Length reads a => a[i]);
  }

  ghost function Contents(bufs: seq<array<byte>>): (s: seq<seq<byte>>)
    reads bufs
    ensures |s| == |bufs| && forall i :: 0 <= i < |s| ==> s[i] == bufs[i][..]
  {
    seq(|bufs|, i requires 0 <= i < |bufs| reads bufs => bufs[i][..])
  }

  class Cache {
    var entries: map<string, Slot>
    const defaultTTL: int
    const keepStale: bool

    constructor (ttl: int, keepStale: bool)
      ensures entries == map[] && this.defaultTTL == ttl && this.keepStale == keepStale
    {
      entries := map[];
      this.defaultTTL := ttl;
      this.keepStale := keepStale;
    }

    /** The buffers the cache refers to. */
    ghost function Buffers(): set<array<byte>>
      reads this
    {
      set k | k in entries :: entries[k].data
    }

    /** The cache as a value. */
    ghost function View(): E.Table<seq<byte>>
      reads this, Buffers()
    {
      map k | k in entries :: E.Entry(entries[k].data[..], entries[k].timestamp, entries[k].ttl)
    }

    /** All values of the range, or none: `ok` only if every one is present and fresh. */
    method GetRange(slave: byte, fc: byte, start: word, quantity: word, now: int) returns (values: seq<array<byte>>, ok: bool)
      ensures ok <==> E.GetRange(View(), slave, fc, start, quantity, now).Some?
      ensures ok ==> Contents(values) == E.GetRange(View(), slave, fc, start, quantity, now).value
      ensures forall i :: 0 <= i < |values| ==> fresh(values[i]) && values[i] !in Buffers()
      ensures forall i, j :: 0 <= i < j < |values| ==> values[i] != values[j]
    {
      values := [];
      if quantity == 0 { return [], false; }
      var i: int := 0;
      while i < quantity
        invariant 0 <= i <= quantity && |values| == i
        invariant forall k :: 0 <= k < i ==> E.KeyAt(slave, fc, start, k) in View() && !E.Expired(View()[E.KeyAt(slave, fc, start, k)], now)
        invariant forall k :: 0 <= k < i ==> fresh(values[k]) && values[k] !in Buffers()
        invariant forall k :: 0 <= k < i ==> values[k][..] == View()[E.KeyAt(slave, fc, start, k)].data
        invariant forall k, j :: 0 <= k < j < i ==> values[k] != values[j]
      {
        var key := E.KeyAt(slave, fc, start, i);
        if key !in entries || now - entries[key].timestamp > entries[key].ttl {
          return [], false;
        }
        var data := CopyOf(entries[key].data);
        values := values + [data];
        i := i + 1;
      }
      ok := true;
      assert E.AllFresh(View(), slave, fc, start, quantity, now);
      assert Contents(values) == E.Values(View(), slave, fc, start, quantity);
    }

    /** The same regardless of age. */
    method GetRangeStale(slave: byte, fc: byte, start: word, quantity: word) returns (values: seq<array<byte>>, ok: bool)
      ensures ok <==> E.GetRangeStale(View(), slave, fc, start, quantity).Some?
      ensures ok ==> Contents(values) == E.GetRangeStale(View(), slave, fc, start, quantity).value
      ensures forall i :: 0 <= i < |values| ==> fresh(values[i]) && values[i] !in Buffers()
      ensures forall i, j :: 0 <= i < j < |values| ==> values[i] != values[j]
    {
      values := [];
      if quantity == 0 { return [], false; }
      var i: int := 0;
      while i < quantity
        invariant 0 <= i <= quantity && |values| == i
        invariant forall k :: 0 <= k < i ==> E.KeyAt(slave, fc, start, k) in View()
        invariant forall k :: 0 <= k < i ==> fresh(values[k]) && values[k] !in Buffers()
        invariant forall k :: 0 <= k < i ==> values[k][..] == View()[E.KeyAt(slave, fc, start, k)].data
        invariant forall k, j :: 0 <= k < j < i ==> values[k] != values[j]
      {
        var key := E.KeyAt(slave, fc, start, i);
        if key !in entries {
          return [], false;
        }
        var data := CopyOf(entries[key].data);
        values := values + [data];
        i := i + 1;
      }
      ok := true;
      assert E.AllPresent(View(), slave, fc, start, quantity);
      assert Contents(values) == E.Values(View(), slave, fc, start, quantity);
    }

    /** Stores copies: the caller's buffers, which may be shared between values, stay the caller's. */
    method SetRange(slave: byte, fc: byte, start: word, values: seq<array<byte>>, now: int)
      modifies `entries
      ensures View() == E.SetRange(old(View()), slave, fc, start, Contents(values), now, defaultTTL)
      ensures fresh(Buffers() - old(Buffers()))
    {
      ghost var before, contents := View(), Contents(values);
      var i := 0;
      while i < |values|
        invariant 0 <= i <= |values|
        invariant View() == E.SetRange(before, slave, fc, start, contents[..i], now, defaultTTL)
        invariant fresh(Buffers() - old(Buffers()))
      {
        var copied := CopyOf(values[i]);
        ghost var was := View();
        entries := entries[E.KeyAt(slave, fc, start, i) := Slot(copied, now, defaultTTL)];
        assert View() == was[E.KeyAt(slave, fc, start, i) := E.Entry(contents[i], now, defaultTTL)];
        assert contents[..i + 1][..i] == contents[..i];
        i := i + 1;
      }
      assert contents[..i] == contents;
    }

    method DeleteRange(slave: byte, fc: byte, start: word, quantity: word)
      modifies `entries
      ensures View() == E.DeleteRange(old(View()), slave, fc, start, quantity)
      ensures Buffers() <= old(Buffers())
    {
      var i: int := 0;
      while i < quantity
        invariant 0 <= i <= quantity
        invariant entries == old(entries) - E.RangeKeys(slave, fc, start, i)
      {
        entries := entries - {E.KeyAt(slave, fc, start, i)};
        i := i + 1;
        assert E.RangeKeys(slave, fc, start, i) == E.RangeKeys(slave, fc, start, i - 1) + {E.KeyAt(slave, fc, start, i - 1)};
      }
    }

    method CleanupOnce(now: int)
      modifies `entries
      ensures View() == E.Cleanup(old(View()), keepStale, now)
      ensures Buffers() <= old(Buffers())
    {
      if keepStale { return; }
      var keys := entries.Keys;
      while keys != {}
        invariant keys <= entries.Keys <= old(entries).Keys
        invariant forall k :: k in entries ==> entries[k] == old(entries)[k]
        invariant forall k :: k in old(entries) && k !in keys ==>
                    (k in entries <==> now - old(entries)[k].timestamp <= old(entries)[k].ttl)
        decreases |keys|
      {
        var key :| key in keys;
        keys := keys - {key};
        if now - entries[key].timestamp > entries[key].ttl {
          entries := entries - {key};
        }
      }
    }
  }

  /** The memory side of coalescing: the fetched buffer stays inside the in-flight request; the leader
      and every follower get a copy of their own, so nobody shares memory with anybody. */
  class InflightRequest {
    var result: Option<array<byte>>

    constructor ()
      ensures result == None
    {
      result := None;
    }

    /** The leader publishes what it fetched and keeps a copy. */
    method Publish(data: array<byte>) returns (own: array<byte>)
      modifies this
      ensures result == Some(data) && fresh(own) && own[..] == data[..] && own != data
    {
      result := Some(data);
      own := CopyOf(data);
    }

    /** A follower's copy. */
    method Share() returns (copied: array<byte>)
      requires result.Some?
      ensures fresh(copied) && copied[..] == result.value[..] && copied != result.value
    {
      copied := CopyOf(result.value);
    }
  }
}
