/**
 The critical sections of the proxy on the real cache: each method is what `handleRead` or
 `handleWrite` does while it holds `cacheStateMu` (the copying and packing outside the lock
 included).  Their contracts are in terms of the table functions that the steps of the protocol in
 Coherence are made of; the last two methods put sections together.
 */
module ProxySections {
  import opened Wrappers
  import opened Bytes
  import opened Codec
  import opened CacheStore
  import E = Entries
  import F = Frames
  import X = Errors

  class Proxy {
    const cache: Cache
    const serveStale: bool
    var writeGeneration: nat

    constructor (ttl: int, serveStale: bool)
      ensures fresh(cache) && cache.View() == map[] && writeGeneration == 0
      ensures this.serveStale == serveStale && cache.keepStale == serveStale && cache.defaultTTL == ttl
    {
      cache := new Cache(ttl, serveStale);
      this.serveStale, writeGeneration := serveStale, 0;
    }

    method Respond(req: F.Request, values: seq<array<byte>>) returns (resp: array<byte>)
      requires F.Validate(req).None? && F.IsReadFunction(req.fc) && |values| == req.qty
      ensures fresh(resp) && resp[..] == Assemble(req.fc, req.qty, Contents(values))
    {
      F.ValidatedRequest(req);
      var bytes: seq<seq<byte>> := [];
      var i := 0;
      while i < |values|
        invariant 0 <= i <= |values| && |bytes| == i && forall k :: 0 <= k < i ==> bytes[k] == values[k][..]
      {
        bytes := bytes + [values[i][..]];
        i := i + 1;
      }
      assert bytes == Contents(values);
      resp := AssembleResponse(req.fc, req.qty, bytes);
    }

    /** The first section of handleRead: a complete fresh range is answered at once, otherwise the
        write generation is noted together with the miss. */
    method Lookup(req: F.Request, now: int) returns (resp: Option<array<byte>>, generation: nat)
      requires F.Validate(req).None? && F.IsReadFunction(req.fc)
      ensures generation == writeGeneration
      ensures var hit := E.GetRange(cache.View(), req.slave, req.fc, req.addr, req.qty, now);
        && (resp.Some? <==> hit.Some?)
        && (resp.Some? ==> fresh(resp.value) && resp.value[..] == Assemble(req.fc, req.qty, hit.value))
    {
      generation := writeGeneration;
      var values, ok := cache.GetRange(req.slave, req.fc, req.addr, req.qty, now);
      if !ok { return None, generation; }
      var r := Respond(req, values);
      resp := Some(r);
    }

    /** The stale lookup after a failed fetch: only if configured, not after the device's own exception,
        and only for a request whose context is active. */
    method StaleLookup(req: F.Request, err: X.Err, active: bool) returns (resp: Option<array<byte>>)
      requires F.Validate(req).None? && F.IsReadFunction(req.fc)
      ensures var hit := E.GetRangeStale(cache.View(), req.slave, req.fc, req.addr, req.qty);
        && (resp.Some? <==> serveStale && !X.KindOf(err).ProtocolException? && active && hit.Some?)
        && (resp.Some? ==> fresh(resp.value) && resp.value[..] == Assemble(req.fc, req.qty, hit.value))
    {
      if !serveStale || X.KindOf(err).ProtocolException? || !active { return None; }
      var values, ok := cache.GetRangeStale(req.slave, req.fc, req.addr, req.qty);
      if !ok { return None; }
      var r := Respond(req, values);
      resp := Some(r);
    }

    method Buffers(values: seq<seq<byte>>) returns (bufs: seq<array<byte>>)
      ensures |bufs| == |values| && Contents(bufs) == values
      ensures forall i :: 0 <= i < |bufs| ==> fresh(bufs[i])
    {
      bufs := [];
      var i := 0;
      while i < |values|
        invariant 0 <= i <= |values| && |bufs| == i
        invariant forall k :: 0 <= k < i ==> fresh(bufs[k]) && bufs[k][..] == values[k]
      {
        var v := values[i];
        var b := new byte[|v|](j requires 0 <= j < |v| => v[j]);
        bufs := bufs + [b];
        i := i + 1;
      }
      assert Contents(bufs) == values;
    }

    method StoreValues(req: F.Request, values: seq<seq<byte>>, now: int)
      modifies cache`entries
      ensures cache.View() == E.SetRange(old(cache.View()), req.slave, req.fc, req.addr, values, now, cache.defaultTTL)
      ensures fresh(cache.Buffers() - old(cache.Buffers()))
    {
      var bufs := Buffers(values);
      cache.SetRange(req.slave, req.fc, req.addr, bufs, now);
    }

    /** The store section: a response that decomposes is stored unless a write began or ended since
        the generation was noted. */
    method StoreReply(req: F.Request, generation: nat, data: seq<byte>, now: int)
      requires F.Validate(req).None? && F.IsReadFunction(req.fc)
      modifies cache`entries
      ensures var d := Decompose(req.fc, req.qty, data);
        cache.View() == if d.Some? && writeGeneration == generation
                        then E.SetRange(old(cache.View()), req.slave, req.fc, req.addr, d.value, now, cache.defaultTTL)
                        else old(cache.View())
      ensures fresh(cache.Buffers() - old(cache.Buffers()))
    {
      F.ValidatedRequest(req);
      var values := DecomposeResponse(req.fc, req.qty, data);
      if values.Some? && writeGeneration == generation {
        StoreValues(req, values.value, now);
      }
    }

    /** The written range is dropped under every read function code. */
    method InvalidateCache(req: F.Request)
      modifies cache`entries
      ensures cache.View() == E.Invalidate(old(cache.View()), req.slave, req.addr, req.qty)
      ensures cache.Buffers() <= old(cache.Buffers())
    {
      cache.DeleteRange(req.slave, 0x01, req.addr, req.qty);
      cache.DeleteRange(req.slave, 0x02, req.addr, req.qty);
      cache.DeleteRange(req.slave, 0x03, req.addr, req.qty);
      cache.DeleteRange(req.slave, 0x04, req.addr, req.qty);
    }

    /** Either end of a write: the generation moves on and the written range is dropped. */
    method WriteBoundary(req: F.Request)
      modifies `writeGeneration, cache`entries
      ensures writeGeneration == old(writeGeneration) + 1
      ensures cache.View() == E.Invalidate(old(cache.View()), req.slave, req.addr, req.qty)
    {
      writeGeneration := writeGeneration + 1;
      InvalidateCache(req);
    }

    /** A device reply stored with no write in between, then a lookup of any part of it while it is
        fresh: the response is the one the device would have given for that part. */
    method StoreThenServe(req: F.Request, generation: nat, data: seq<byte>, now: int, part: F.Request, later: int, ghost mem: Memory)
      returns (resp: Option<array<byte>>)
      requires F.Validate(req).None? && F.IsReadFunction(req.fc) && F.Validate(part).None?
      requires part.slave == req.slave && part.fc == req.fc && req.addr <= part.addr && part.addr + part.qty <= req.addr + req.qty
      requires data == DeviceReply(req.fc, mem, req.addr, req.qty) && generation == writeGeneration && later - now <= cache.defaultTTL
      modifies cache`entries
      ensures resp.Some? && resp.value[..] == DeviceReply(part.fc, mem, part.addr, part.qty)
    {
      ghost var view := cache.View();
      F.ValidatedRequest(req);
      F.ValidatedRequest(part);
      CacheRefinesDirectRead(view, req.slave, req.fc, mem, req.addr, req.qty, now, cache.defaultTTL, part.addr, part.qty, later);
      StoreReply(req, generation, data, now);
      var seen;
      resp, seen := Lookup(part, later);
    }

    /** Either end of a write, then a lookup of a range that shares an address a with it: a miss, at any time. */
    method WriteThenLookup(write: F.Request, req: F.Request, now: int, ghost a: nat) returns (resp: Option<array<byte>>, generation: nat)
      requires F.Validate(write).None? && F.IsWriteFunction(write.fc) && F.Validate(req).None? && F.IsReadFunction(req.fc)
      requires write.slave == req.slave && write.addr <= a < write.addr + write.qty && req.addr <= a < req.addr + req.qty
      modifies `writeGeneration, cache`entries
      ensures resp.None? && generation == writeGeneration > old(writeGeneration)
    {
      F.ValidatedRequest(write);
      F.ValidatedRequest(req);
      ghost var view := cache.View();
      WriteBoundary(write);
      E.TouchedIsMissing(view, write.slave, write.addr, write.qty, req.fc, req.addr, req.qty, a, now);
      resp, generation := Lookup(req, now);
    }
  }
}
