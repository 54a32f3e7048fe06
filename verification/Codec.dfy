/**
 Read responses: splitting them into per-register and per-coil values (`decomposeResponse`),
 putting values back together (`assembleResponse`), and the reply the device itself would build
 (MODBUS Application Protocol Specification V1.1b3, sections 6.1 to 6.4).
 */
module Codec {
  import opened Wrappers
  import opened Bytes
  import E = Entries

  predicate RegisterCode(fc: byte) { fc == 0x03 || fc == 0x04 }

  predicate CoilCode(fc: byte) { fc == 0x01 || fc == 0x02 }

  /** The quantities ValidateRequest lets through for a read. */
  predicate ValidQuantity(fc: byte, q: nat) { (RegisterCode(fc) && 1 <= q <= 125) || (CoilCode(fc) && 1 <= q <= 2000) }

  // ---------- what the device answers ----------

  /** buildReadResponse */
  function ReadResponse(fc: byte, payload: seq<byte>): seq<byte> { [fc, |payload| % 256] + payload }

  function RegisterBytes(regs: seq<word>): (s: seq<byte>)
    ensures |s| == 2 * |regs|
  {
    seq(2 * |regs|, j requires 0 <= j < 2 * |regs| => if j % 2 == 0 then Hi(regs[j / 2]) else Lo(regs[j / 2]))
  }

  function BitValue(bits: seq<bool>, i: nat): int { if i < |bits| && bits[i] then 1 else 0 }

  /** n coils from position `from` on as a number, the first coil its lowest bit; coils past the
      end are zero. */
  function Pack(bits: seq<bool>, from: nat, n: nat): (r: nat)
    ensures r < Power(n)
    decreases n
  {
    if n == 0 then 0 else BitValue(bits, from) + 2 * Pack(bits, from + 1, n - 1)
  }

  /** Byte j of a coil payload. */
  function PackByte(bits: seq<bool>, j: nat): byte {
    PowerEight();
    Pack(bits, 8 * j, 8)
  }

  /** The number of bytes that hold q coils. */
  function BytesFor(q: nat): (n: nat)
    ensures q <= 8 * n < q + 8
  {
    (q + 7) / 8
  }

  // ---------- specification of the two functions ----------

  function RegisterValues(payload: seq<byte>, q: nat): (v: seq<seq<byte>>)
    requires 2 * q <= |payload|
    ensures |v| == q
  {
    seq(q, i requires 0 <= i < q => [payload[2 * i], payload[2 * i + 1]])
  }

  function CoilValues(payload: seq<byte>, q: nat): (v: seq<seq<byte>>)
    requires q <= 8 * |payload|
    ensures |v| == q
  {
    seq(q, i requires 0 <= i < q => CoilValue(Bit(payload[i / 8], i % 8)))
  }

  function Decompose(fc: byte, q: nat, data: seq<byte>): Option<seq<seq<byte>>> {
    if |data| < 2 then None else
    var payload := data[2..];
    if RegisterCode(fc) then
      if 2 * q <= |payload| then Some(RegisterValues(payload, q)) else None
    else if CoilCode(fc) then
      if q <= 8 * |payload| then Some(CoilValues(payload, q)) else None
    else None
  }

  function CoilValue(on: bool): seq<byte> { if on then [1] else [0] }

  predicate On(v: seq<byte>) { |v| > 0 && v[0] != 0 }

  function OnBits(values: seq<seq<byte>>): (bits: seq<bool>)
    ensures |bits| == |values|
  {
    seq(|values|, i requires 0 <= i < |values| => On(values[i]))
  }

  function RegisterByteAt(values: seq<seq<byte>>, j: nat): byte {
    if j / 2 < |values| && |values[j / 2]| >= 2 then values[j / 2][j % 2] else 0
  }

  function RegisterPayload(values: seq<seq<byte>>, q: nat): (s: seq<byte>)
    ensures |s| == 2 * q
  {
    seq(2 * q, j requires 0 <= j < 2 * q => RegisterByteAt(values, j))
  }

  function CoilPayload(bits: seq<bool>, q: nat): (s: seq<byte>)
    ensures |s| == BytesFor(q)
  {
    seq(BytesFor(q), j requires 0 <= j < BytesFor(q) => PackByte(bits, j))
  }

  function Assemble(fc: byte, q: nat, values: seq<seq<byte>>): seq<byte> {
    if RegisterCode(fc) then ReadResponse(fc, RegisterPayload(values, q))
    else if CoilCode(fc) then ReadResponse(fc, CoilPayload(OnBits(values), q))
    else []
  }

  // ---------- the two functions as written ----------

  /** The register loop; offsets are uint16.  The precondition is what keeps the original from slicing
      out of bounds; every validated quantity meets it. */
  method DecomposeRegisters(quantity: word, payload: seq<byte>) returns (r: Option<seq<seq<byte>>>)
    requires quantity < 32768 || |payload| < 65534
    ensures r == if 2 * quantity <= |payload| then Some(RegisterValues(payload, quantity)) else None
  {
    var values: seq<seq<byte>> := [];
    var i: int := 0;
    while i < quantity
      invariant 0 <= i <= quantity && |values| == i && 2 * i <= |payload|
      invariant forall k :: 0 <= k < i ==> values[k] == [payload[2 * k], payload[2 * k + 1]]
    {
      var offset: word := (i * 2) % 65536;
      if (offset + 2) % 65536 > |payload| { return None; }
      var reg := payload[offset..(offset + 2) % 65536];
      assert reg == [payload[2 * i], payload[2 * i + 1]];
      values := values + [reg];
      i := i + 1;
    }
    assert values == RegisterValues(payload, quantity);
    return Some(values);
  }

  method DecomposeCoils(quantity: word, payload: seq<byte>) returns (r: Option<seq<seq<byte>>>)
    ensures r == if quantity <= 8 * |payload| then Some(CoilValues(payload, quantity)) else None
  {
    var values: seq<seq<byte>> := [];
    var i: int := 0;
    while i < quantity
      invariant 0 <= i <= quantity && |values| == i && i <= 8 * |payload|
      invariant forall k :: 0 <= k < i ==> values[k] == CoilValue(Bit(payload[k / 8], k % 8))
    {
      var byteIdx, bitIdx := i / 8, i % 8;
      if byteIdx >= |payload| { return None; }
      if Bit(payload[byteIdx], bitIdx) { values := values + [[1]]; } else { values := values + [[0]]; }
      i := i + 1;
    }
    assert values == CoilValues(payload, quantity);
    return Some(values);
  }

  method DecomposeResponse(fc: byte, quantity: word, data: seq<byte>) returns (r: Option<seq<seq<byte>>>)
    requires quantity < 32768 || |data| < 65536
    ensures r == Decompose(fc, quantity, data)
  {
    if |data| < 2 { return None; }
    var payload := data[2..];
    if RegisterCode(fc) {
      r := DecomposeRegisters(quantity, payload);
    } else if CoilCode(fc) {
      r := DecomposeCoils(quantity, payload);
    } else {
      r := None;
    }
  }

  /** Appending a coil that is on sets its bit, in the byte it falls into. */
  lemma {:induction false} PackExtend(bits: seq<bool>, b: bool, from: nat, n: nat)
    ensures Pack(bits + [b], from, n)
            == if b && from <= |bits| < from + n then SetBit(Pack(bits, from, n), |bits| - from) else Pack(bits, from, n)
    decreases n
  {
    if n > 0 {
      PackExtend(bits, b, from + 1, n - 1);
      var more := bits + [b];
      assert from < |bits| ==> more[from] == bits[from];
      assert from == |bits| ==> more[from] == b;
    }
  }

  /** A zeroed response with its function code and count byte; the length is computed as a uint16. */
  method NewResponse(fc: byte, byteCount: word) returns (resp: array<byte>)
    requires byteCount <= 65533
    ensures fresh(resp) && resp.Length == 2 + byteCount && resp[0] == fc && resp[1] == byteCount % 256
    ensures forall j :: 2 <= j < resp.Length ==> resp[j] == 0
  {
    resp := new byte[(2 + byteCount) % 65536](_ => 0);
    resp[0], resp[1] := fc, byteCount % 256;
  }

  lemma WholeResponse(resp: array<byte>, fc: byte, payload: seq<byte>)
    requires resp.Length == 2 + |payload| && resp[0] == fc && resp[1] == |payload| % 256 && resp[2..] == payload
    ensures resp[..] == ReadResponse(fc, payload)
  {
    assert resp[..] == [resp[0], resp[1]] + resp[2..];
  }

  method AssembleRegisters(fc: byte, quantity: word, values: seq<seq<byte>>) returns (resp: array<byte>)
    requires |values| <= quantity <= 32766
    ensures fresh(resp) && resp[..] == ReadResponse(fc, RegisterPayload(values, quantity))
  {
    var byteCount: word := (quantity * 2) % 65536;
    resp := NewResponse(fc, byteCount);
    var i := 0;
    while i < |values|
      invariant 0 <= i <= |values| && resp[0] == fc && resp[1] == byteCount % 256
      invariant forall j :: 0 <= j < 2 * quantity ==> resp[2 + j] == if j < 2 * i then RegisterByteAt(values, j) else 0
    {
      var v := values[i];
      if |v| >= 2 {
        resp[2 + i * 2] := v[0];
        resp[2 + i * 2 + 1] := v[1];
      }
      i := i + 1;
    }
    assert resp[2..] == RegisterPayload(values, quantity);
    WholeResponse(resp, fc, RegisterPayload(values, quantity));
  }

  /** One more coil changes one byte of the payload, and only if the coil is on. */
  lemma {:induction false} CoilPayloadExtend(bits: seq<bool>, b: bool, q: nat)
    requires |bits| < q
    ensures var p := CoilPayload(bits, q);
      CoilPayload(bits + [b], q) == if b then p[|bits| / 8 := PutBit(p[|bits| / 8], |bits| % 8)] else p
  {
    var p, more, k := CoilPayload(bits, q), CoilPayload(bits + [b], q), |bits| / 8;
    forall j | 0 <= j < |p| ensures more[j] == if b && j == k then PutBit(p[j], |bits| % 8) else p[j] {
      PackExtend(bits, b, 8 * j, 8);
    }
  }

  function PutBit(b: byte, k: nat): byte
    requires k < 8
  {
    PowerEight();
    SetBitInRange(b, k, 8);
    SetBit(b, k)
  }

  lemma {:induction false} PackNothing(from: nat, n: nat)
    ensures Pack([], from, n) == 0
    decreases n
  {
    if n > 0 { PackNothing(from + 1, n - 1); }
  }

  lemma {:induction false} NoCoils(q: nat)
    ensures forall j :: 0 <= j < BytesFor(q) ==> CoilPayload([], q)[j] == 0
  {
    forall j | 0 <= j < BytesFor(q) ensures CoilPayload([], q)[j] == 0 { PackNothing(8 * j, 8); }
  }

  /** `resp[2+byteIdx] |= 1 << bitIdx` for coil i. */
  method TurnOn(resp: array<byte>, i: nat, ghost bits: seq<bool>, ghost q: nat)
    requires |bits| == i < q && resp.Length == 2 + BytesFor(q) && resp[2..] == CoilPayload(bits, q)
    modifies resp
    ensures resp[2..] == CoilPayload(bits + [true], q) && resp[0] == old(resp[0]) && resp[1] == old(resp[1])
  {
    CoilPayloadExtend(bits, true, q);
    var byteIdx, bitIdx := i / 8, i % 8;
    assert resp[2 + byteIdx] == resp[2..][byteIdx];
    resp[2 + byteIdx] := PutBit(resp[2 + byteIdx], bitIdx);
  }

  method FillCoils(resp: array<byte>, values: seq<seq<byte>>, ghost q: nat)
    requires |values| <= q && resp.Length == 2 + BytesFor(q) && resp[2..] == CoilPayload([], q)
    modifies resp
    ensures resp[2..] == CoilPayload(OnBits(values), q) && resp[0] == old(resp[0]) && resp[1] == old(resp[1])
  {
    var i := 0;
    ghost var bits: seq<bool> := [];
    while i < |values|
      invariant 0 <= i <= |values| && |bits| == i && resp[0] == old(resp[0]) && resp[1] == old(resp[1])
      invariant forall k :: 0 <= k < i ==> bits[k] == On(values[k])
      invariant resp[2..] == CoilPayload(bits, q)
    {
      if On(values[i]) { TurnOn(resp, i, bits, q); } else { CoilPayloadExtend(bits, false, q); }
      bits := bits + [On(values[i])];
      i := i + 1;
    }
    assert bits == OnBits(values);
  }

  method AssembleCoils(fc: byte, quantity: word, values: seq<seq<byte>>) returns (resp: array<byte>)
    requires |values| <= quantity <= 65528
    ensures fresh(resp) && resp[..] == ReadResponse(fc, CoilPayload(OnBits(values), quantity))
  {
    var byteCount: word := ((quantity + 7) % 65536) / 8;
    resp := NewResponse(fc, byteCount);
    NoCoils(quantity);
    assert resp[2..] == CoilPayload([], quantity);
    FillCoils(resp, values, quantity);
    WholeResponse(resp, fc, CoilPayload(OnBits(values), quantity));
  }

  method AssembleResponse(fc: byte, quantity: word, values: seq<seq<byte>>) returns (resp: array<byte>)
    requires |values| <= quantity
    requires RegisterCode(fc) ==> quantity <= 32766
    requires CoilCode(fc) ==> quantity <= 65528
    ensures fresh(resp) && resp[..] == Assemble(fc, quantity, values)
  {
    if RegisterCode(fc) {
      resp := AssembleRegisters(fc, quantity, values);
    } else if CoilCode(fc) {
      resp := AssembleCoils(fc, quantity, values);
    } else {
      resp := new byte[0];
    }
  }

  // ---------- the cache as a fast form of a direct read ----------

  /** One slave's registers and coils, as one read function code sees them. */
  datatype Memory = Memory(regs: nat -> word, coils: nat -> bool)

  function Registers(mem: Memory, start: nat, q: nat): (s: seq<word>)
    ensures |s| == q
  {
    seq<word>(q, i requires 0 <= i < q => mem.regs(start + i))
  }

  function Coils(mem: Memory, start: nat, q: nat): (s: seq<bool>)
    ensures |s| == q
  {
    seq(q, i requires 0 <= i < q => mem.coils(start + i))
  }

  /** The response the device builds for a read of q registers or coils from `start`. */
  function DeviceReply(fc: byte, mem: Memory, start: nat, q: nat): seq<byte> {
    if RegisterCode(fc) then ReadResponse(fc, RegisterBytes(Registers(mem, start, q)))
    else ReadResponse(fc, CoilPayload(Coils(mem, start, q), q))
  }

  /** The per-address values behind that response. */
  function DeviceValues(fc: byte, mem: Memory, start: nat, q: nat): (s: seq<seq<byte>>)
    ensures |s| == q
  {
    seq(q, i requires 0 <= i < q => if RegisterCode(fc) then [Hi(mem.regs(start + i)), Lo(mem.regs(start + i))]
                                    else CoilValue(mem.coils(start + i)))
  }

  lemma {:induction false} PackBit(bits: seq<bool>, from: nat, n: nat, k: nat)
    requires k < n
    ensures Bit(Pack(bits, from, n), k) <==> from + k < |bits| && bits[from + k]
    decreases n
  {
    if k > 0 { PackBit(bits, from + 1, n - 1, k - 1); }
  }

  lemma {:induction false} PayloadBit(bits: seq<bool>, q: nat, i: nat)
    requires i < 8 * BytesFor(q)
    ensures Bit(CoilPayload(bits, q)[i / 8], i % 8) <==> i < |bits| && bits[i]
  {
    var j, k := i / 8, i % 8;
    PackBit(bits, 8 * j, 8, k);
    assert 8 * j + k == i;
  }

  lemma {:induction false} RegisterReplyValues(fc: byte, mem: Memory, start: nat, q: nat)
    requires RegisterCode(fc)
    ensures RegisterValues(RegisterBytes(Registers(mem, start, q)), q) == DeviceValues(fc, mem, start, q)
  {
    var payload := RegisterBytes(Registers(mem, start, q));
    forall i | 0 <= i < q ensures RegisterValues(payload, q)[i] == DeviceValues(fc, mem, start, q)[i] {
      assert payload[2 * i] == Hi(mem.regs(start + i)) && payload[2 * i + 1] == Lo(mem.regs(start + i));
    }
  }

  lemma {:induction false} CoilReplyValues(fc: byte, mem: Memory, start: nat, q: nat)
    requires CoilCode(fc)
    ensures CoilValues(CoilPayload(Coils(mem, start, q), q), q) == DeviceValues(fc, mem, start, q)
  {
    var bits := Coils(mem, start, q);
    var got, want := CoilValues(CoilPayload(bits, q), q), DeviceValues(fc, mem, start, q);
    forall i | 0 <= i < q ensures got[i] == want[i] {
      UnpackCoil(bits, q, i);
      assert bits[i] == mem.coils(start + i);
    }
  }

  lemma {:induction false} UnpackCoil(bits: seq<bool>, q: nat, i: nat)
    requires |bits| == q && i < q
    ensures CoilValues(CoilPayload(bits, q), q)[i] == CoilValue(bits[i])
  {
    PayloadBit(bits, q, i);
  }

  lemma {:induction false} DecomposeReply(fc: byte, mem: Memory, start: nat, q: nat)
    requires RegisterCode(fc) || CoilCode(fc)
    ensures Decompose(fc, q, DeviceReply(fc, mem, start, q)) == Some(DeviceValues(fc, mem, start, q))
  {
    var payload := DeviceReply(fc, mem, start, q)[2..];
    if RegisterCode(fc) {
      assert payload == RegisterBytes(Registers(mem, start, q));
      RegisterReplyValues(fc, mem, start, q);
    } else {
      assert payload == CoilPayload(Coils(mem, start, q), q);
      CoilReplyValues(fc, mem, start, q);
    }
  }

  lemma {:induction false} AssembleValues(fc: byte, mem: Memory, start: nat, q: nat)
    requires RegisterCode(fc) || CoilCode(fc)
    ensures Assemble(fc, q, DeviceValues(fc, mem, start, q)) == DeviceReply(fc, mem, start, q)
  {
    var values := DeviceValues(fc, mem, start, q);
    if RegisterCode(fc) {
      assert RegisterPayload(values, q) == RegisterBytes(Registers(mem, start, q));
    } else {
      forall i | 0 <= i < q ensures OnBits(values)[i] == Coils(mem, start, q)[i] {
        assert values[i] == CoilValue(mem.coils(start + i));
      }
      assert OnBits(values) == Coils(mem, start, q);
    }
  }

  lemma {:induction false} DeviceValuesSlice(fc: byte, mem: Memory, start: nat, q: nat, sub: nat, subQty: nat)
    requires start <= sub && sub + subQty <= start + q
    ensures DeviceValues(fc, mem, start, q)[sub - start..sub - start + subQty] == DeviceValues(fc, mem, sub, subQty)
  {
    var a, b := DeviceValues(fc, mem, start, q)[sub - start..sub - start + subQty], DeviceValues(fc, mem, sub, subQty);
    forall i | 0 <= i < subQty ensures a[i] == b[i] { assert start + (sub - start + i) == sub + i; }
  }

  /** What the proxy answers for a sub-range from a table into which a response was decomposed. */
  function ServeSubRange(m: E.Table<seq<byte>>, slave: nat, fc: byte, start: nat, values: Option<seq<seq<byte>>>,
                         now: int, ttl: int, sub: nat, subQty: nat, later: int): Option<seq<byte>>
  {
    if values.None? then None else
    var hit := E.GetRange(E.SetRange(m, slave, fc, start, values.value, now, ttl), slave, fc, sub, subQty, later);
    if hit.None? then None else Some(Assemble(fc, subQty, hit.value))
  }

  lemma {:induction false} ServeSlice(m: E.Table<seq<byte>>, slave: nat, fc: byte, start: nat, values: seq<seq<byte>>,
                                      now: int, ttl: int, from: nat, sub: nat, subQty: nat, later: int)
    requires |values| <= E.ADDRESSES && sub == start + from && 0 < subQty && from + subQty <= |values| && later - now <= ttl
    ensures ServeSubRange(m, slave, fc, start, Some(values), now, ttl, sub, subQty, later)
            == Some(Assemble(fc, subQty, values[from..from + subQty]))
  {
    E.StoredRangeServesSubRange(m, slave, fc, start, values, now, ttl, from, subQty, later);
  }

  /** Once the response for one range has been decomposed and stored, serving any sub-range from
      the cache gives, byte for byte, what the device would have answered for it from the same
      state, including coil ranges that do not start on a byte boundary. */
  lemma {:induction false} CacheRefinesDirectRead(m: E.Table<seq<byte>>, slave: nat, fc: byte, mem: Memory, start: nat, q: nat,
                                                  now: int, ttl: int, sub: nat, subQty: nat, later: int)
    requires ValidQuantity(fc, q) && start + q <= E.ADDRESSES
    requires start <= sub && 0 < subQty && sub + subQty <= start + q
    requires later - now <= ttl
    ensures ServeSubRange(m, slave, fc, start, Decompose(fc, q, DeviceReply(fc, mem, start, q)), now, ttl, sub, subQty, later)
            == Some(DeviceReply(fc, mem, sub, subQty))
  {
    var values, part, from := DeviceValues(fc, mem, start, q), DeviceValues(fc, mem, sub, subQty), sub - start;
    assert part == values[from..from + subQty] by { DeviceValuesSlice(fc, mem, start, q, sub, subQty); }
    assert Decompose(fc, q, DeviceReply(fc, mem, start, q)) == Some(values) by { DecomposeReply(fc, mem, start, q); }
    assert Assemble(fc, subQty, part) == DeviceReply(fc, mem, sub, subQty) by { AssembleValues(fc, mem, sub, subQty); }
    ServeSlice(m, slave, fc, start, values, now, ttl, from, sub, subQty, later);
  }

  /** What is taken apart, byte by byte: a response decomposes exactly if its payload is long enough for the
      quantity, longer ones included; a register is its two bytes, a coil its bit. */
  lemma {:induction false} DecomposedValues(fc: byte, q: nat, data: seq<byte>)
    ensures Decompose(fc, q, data).Some? <==>
              |data| >= 2 && ((RegisterCode(fc) && 2 * q <= |data| - 2) || (CoilCode(fc) && q <= 8 * (|data| - 2)))
    ensures Decompose(fc, q, data).Some? ==>
              forall i :: 0 <= i < q ==>
                Decompose(fc, q, data).value[i] ==
                  if RegisterCode(fc) then [data[2 + 2 * i], data[3 + 2 * i]]
                  else if Bit(data[2 + i / 8], i % 8) then [1] else [0]
  {
  }

  /** What is put together, value by value: a register value of two bytes or more gives its first two, a
      shorter one zeros; a coil is on exactly if its value is not empty and does not begin with zero. */
  lemma {:induction false} AssembledValues(fc: byte, q: nat, values: seq<seq<byte>>, i: nat)
    requires i < |values| <= q && (RegisterCode(fc) || CoilCode(fc))
    ensures var r, v := Assemble(fc, q, values), values[i];
      if RegisterCode(fc) then
        |r| == 2 + 2 * q && (if |v| >= 2 then r[2 + 2 * i] == v[0] && r[3 + 2 * i] == v[1] else r[2 + 2 * i] == 0 && r[3 + 2 * i] == 0)
      else
        |r| == 2 + BytesFor(q) && (Bit(r[2 + i / 8], i % 8) <==> v != [] && v[0] != 0)
  {
    var r := Assemble(fc, q, values);
    if RegisterCode(fc) {
      assert r[2 + 2 * i] == RegisterPayload(values, q)[2 * i] && r[3 + 2 * i] == RegisterPayload(values, q)[2 * i + 1];
    } else {
      PayloadBit(OnBits(values), q, i);
      assert r[2 + i / 8] == CoilPayload(OnBits(values), q)[i / 8];
    }
  }

  // ---------- the two functions undo each other ----------

  /** Values as the cache holds them: two bytes per register, 0 or 1 per coil. */
  predicate WellFormed(fc: byte, values: seq<seq<byte>>) {
    forall i :: 0 <= i < |values| ==> if RegisterCode(fc) then |values[i]| == 2 else values[i] == [0] || values[i] == [1]
  }

  lemma {:induction false} DecomposeUndoesAssemble(fc: byte, q: nat, values: seq<seq<byte>>)
    requires (RegisterCode(fc) || CoilCode(fc)) && |values| == q && WellFormed(fc, values)
    ensures Decompose(fc, q, Assemble(fc, q, values)) == Some(values)
  {
    var data := Assemble(fc, q, values);
    var got := Decompose(fc, q, data);
    if RegisterCode(fc) {
      assert data[2..] == RegisterPayload(values, q);
      forall i | 0 <= i < q ensures got.value[i] == values[i] {
        assert RegisterPayload(values, q)[2 * i] == RegisterByteAt(values, 2 * i);
        assert RegisterPayload(values, q)[2 * i + 1] == RegisterByteAt(values, 2 * i + 1);
      }
    } else {
      assert data[2..] == CoilPayload(OnBits(values), q);
      forall i | 0 <= i < q ensures got.value[i] == values[i] { PayloadBit(OnBits(values), q, i); }
    }
    assert got.value == values;
  }

  /** Reassembling a register response gives it back. */
  lemma {:induction false} AssembleUndoesDecomposeRegisters(fc: byte, q: nat, payload: seq<byte>)
    requires RegisterCode(fc) && |payload| == 2 * q
    ensures var d := Decompose(fc, q, ReadResponse(fc, payload));
      d.Some? && Assemble(fc, q, d.value) == ReadResponse(fc, payload)
  {
    var data := ReadResponse(fc, payload);
    assert data[2..] == payload;
    var values := Decompose(fc, q, data).value;
    forall j | 0 <= j < 2 * q ensures RegisterPayload(values, q)[j] == payload[j] {
      assert values[j / 2] == [payload[2 * (j / 2)], payload[2 * (j / 2) + 1]];
    }
    assert RegisterPayload(values, q) == payload;
  }

  /** The bits of a coil payload past the last coil are zero. */
  predicate PaddingClear(payload: seq<byte>, q: nat)
    requires |payload| == BytesFor(q)
  {
    forall i :: q <= i < 8 * |payload| ==> !Bit(payload[i / 8], i % 8)
  }

  /** Reassembling a coil response keeps every coil and clears the padding, so it gives the
      response back exactly when the padding was clear. */
  lemma {:induction false} AssembleUndoesDecomposeCoils(fc: byte, q: nat, payload: seq<byte>)
    requires CoilCode(fc) && |payload| == BytesFor(q)
    ensures var d := Decompose(fc, q, ReadResponse(fc, payload));
      && d.Some?
      && var r := Assemble(fc, q, d.value);
         && |r| == 2 + |payload| && r[0] == fc && r[1] == |payload| % 256
         && (forall i :: 0 <= i < 8 * |payload| ==> (Bit(r[2..][i / 8], i % 8) <==> i < q && Bit(payload[i / 8], i % 8)))
         && (r == ReadResponse(fc, payload) <==> PaddingClear(payload, q))
  {
    var data := ReadResponse(fc, payload);
    assert data[2..] == payload;
    var values := Decompose(fc, q, data).value;
    var r := Assemble(fc, q, values);
    var p := CoilPayload(OnBits(values), q);
    assert r[2..] == p;
    forall i | 0 <= i < 8 * |payload| ensures Bit(p[i / 8], i % 8) <==> i < q && Bit(payload[i / 8], i % 8) {
      PayloadBit(OnBits(values), q, i);
    }
    if PaddingClear(payload, q) {
      forall j | 0 <= j < |payload| ensures p[j] == payload[j] { SameByte(p, payload, q, j); }
      assert p == payload;
    }
    if r == data { assert p == payload; }
  }

  lemma {:induction false} SameByte(p: seq<byte>, payload: seq<byte>, q: nat, j: nat)
    requires |p| == |payload| == BytesFor(q) && j < |payload| && PaddingClear(payload, q)
    requires forall i :: 0 <= i < 8 * |payload| ==> (Bit(p[i / 8], i % 8) <==> i < q && Bit(payload[i / 8], i % 8))
    ensures p[j] == payload[j]
  {
    forall k | 0 <= k < 8 ensures Bit(p[j], k) == Bit(payload[j], k) {
      var i := 8 * j + k;
      assert i / 8 == j && i % 8 == k;
      assert Bit(p[i / 8], i % 8) <==> i < q && Bit(payload[i / 8], i % 8);
    }
    PowerEight();
    BitsDetermine(p[j], payload[j], 8);
  }

  /** For every validated quantity the response fits a PDU and its count byte is exact. */
  lemma {:induction false} ResponseFits(fc: byte, q: nat, values: seq<seq<byte>>)
    requires ValidQuantity(fc, q)
    ensures var r := Assemble(fc, q, values);
      2 <= |r| <= 252 && r[0] == fc && r[1] == |r| - 2
  {
  }
}
