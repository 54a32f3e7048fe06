/**
 The downstream side of the wire: MBAP framing (MODBUS Messaging on TCP/IP Implementation Guide
 V1.0b, section 3.1.3), request PDUs, and request validation.
 */
module Frames {
  import opened Wrappers
  import opened Bytes
  import opened Codec
  import E = Entries

  const HEADER := 7

  datatype Request = Request(tid: word, slave: byte, fc: byte, addr: word, qty: word, data: seq<byte>, pdu: seq<byte>)

  datatype ReadError = EndOfInput | InvalidProtocol | InvalidLength | PduTooShort

  predicate IsReadFunction(fc: byte) { fc == 0x01 || fc == 0x02 || fc == 0x03 || fc == 0x04 }

  predicate IsSingleWrite(fc: byte) { fc == 0x05 || fc == 0x06 }

  predicate IsMultipleWrite(fc: byte) { fc == 0x0F || fc == 0x10 }

  predicate IsWriteFunction(fc: byte) { IsSingleWrite(fc) || IsMultipleWrite(fc) }

  // ---------- framing ----------

  /** Length field of the header: one more than the PDU, as a uint16. */
  function LengthField(n: nat): word { (n + 1) % 65536 }

  function Header(tid: word, slave: byte, length: word): (h: seq<byte>)
    ensures |h| == HEADER
  {
    [Hi(tid), Lo(tid), 0, 0, Hi(length), Lo(length), slave]
  }

  function Frame(tid: word, slave: byte, pdu: seq<byte>): seq<byte> {
    Header(tid, slave, LengthField(|pdu|)) + pdu
  }

  method WriteResponse(tid: word, slave: byte, pdu: seq<byte>) returns (resp: array<byte>)
    ensures fresh(resp) && resp[..] == Frame(tid, slave, pdu)
  {
    resp := new byte[HEADER + |pdu|](_ => 0);
    var length := LengthField(|pdu|);
    resp[0], resp[1] := Hi(tid), Lo(tid);
    resp[2], resp[3] := Hi(0), Lo(0);
    resp[4], resp[5] := Hi(length), Lo(length);
    resp[6] := slave;
    var i := 0;
    while i < |pdu|
      invariant 0 <= i <= |pdu| && resp[..7] == Header(tid, slave, length)
      invariant forall k :: 0 <= k < i ==> resp[7 + k] == pdu[k]
    {
      resp[7 + i] := pdu[i];
      i := i + 1;
    }
    assert resp[7..] == pdu;
    assert resp[..] == resp[..7] + resp[7..];
  }

  datatype Unit = Unit(tid: word, slave: byte, pdu: seq<byte>)

  datatype Fields = Fields(tid: word, protocol: word, length: word, slave: byte)

  function HeaderFields(h: seq<byte>): Fields
    requires |h| >= HEADER
  {
    Fields(Word(h[0], h[1]), Word(h[2], h[3]), Word(h[4], h[5]), h[6])
  }

  lemma WordOfHalves(n: word)
    ensures Word(Hi(n), Lo(n)) == n
  {
  }

  lemma HalvesOfWord(h: byte, l: byte)
    ensures Hi(Word(h, l)) == h && Lo(Word(h, l)) == l
  {
  }

  lemma HeaderRoundTrip(tid: word, slave: byte, length: word, body: seq<byte>)
    ensures HeaderFields(Header(tid, slave, length) + body) == Fields(tid, 0, length, slave)
  {
    WordOfHalves(tid);
    WordOfHalves(length);
    var h := Header(tid, slave, length);
    assert forall k :: 0 <= k < 7 ==> (h + body)[k] == h[k];
  }

  /** Header and PDU of the next frame of a byte stream, with the rest of the stream. */
  function NextUnit(input: seq<byte>): (r: Result<(Unit, seq<byte>), ReadError>)
    ensures r.Ok? ==> 1 <= |r.value.0.pdu| <= 253 && |r.value.1| < |input|
  {
    if |input| < HEADER then Err(EndOfInput) else
    var h := HeaderFields(input);
    if h.protocol != 0 then Err(InvalidProtocol) else
    var pduLen := (h.length as int) - 1;
    if pduLen < 1 || pduLen > 253 then Err(InvalidLength)
    else if |input| < HEADER + pduLen then Err(EndOfInput)
    else Ok((Unit(h.tid, h.slave, input[7..7 + pduLen]), input[7 + pduLen..]))
  }

  lemma ReadBack(tid: word, slave: byte, pdu: seq<byte>, rest: seq<byte>, length: word)
    requires 1 <= |pdu| <= 253 && length == |pdu| + 1
    ensures NextUnit(Header(tid, slave, length) + (pdu + rest)) == Ok((Unit(tid, slave, pdu), rest))
  {
    var input := Header(tid, slave, length) + (pdu + rest);
    HeaderRoundTrip(tid, slave, length, pdu + rest);
    assert input[7..7 + |pdu|] == pdu && input[7 + |pdu|..] == rest;
  }

  lemma FrameReadBack(tid: word, slave: byte, pdu: seq<byte>, rest: seq<byte>)
    requires 1 <= |pdu| <= 253
    ensures NextUnit(Frame(tid, slave, pdu) + rest) == Ok((Unit(tid, slave, pdu), rest))
  {
    var length := LengthField(|pdu|);
    assert length == |pdu| + 1;
    ReadBack(tid, slave, pdu, rest, length);
    assert Frame(tid, slave, pdu) + rest == Header(tid, slave, length) + (pdu + rest);
  }

  lemma UnitsAreShort(input: seq<byte>, u: Unit, rest: seq<byte>)
    requires NextUnit(input) == Ok((u, rest))
    ensures 1 <= |u.pdu| <= 253
  {
    assert NextUnit(input).value.0 == u;
  }

  /** A frame is read back as it was written, and the stream goes on where it ended, exactly when
      the PDU has 1 to 253 bytes; every other PDU is refused or cut short. */
  lemma FrameRoundTrip(tid: word, slave: byte, pdu: seq<byte>, rest: seq<byte>)
    ensures NextUnit(Frame(tid, slave, pdu) + rest) == Ok((Unit(tid, slave, pdu), rest)) <==> 1 <= |pdu| <= 253
  {
    var input := Frame(tid, slave, pdu) + rest;
    if NextUnit(input) == Ok((Unit(tid, slave, pdu), rest)) { UnitsAreShort(input, Unit(tid, slave, pdu), rest); }
    if 1 <= |pdu| <= 253 { FrameReadBack(tid, slave, pdu, rest); }
  }

  /** What is accepted is read off the input as it stands: the header's own fields, a PDU of the length it
      announces, and the rest. */
  lemma AcceptedUnit(input: seq<byte>, u: Unit, rest: seq<byte>)
    requires NextUnit(input) == Ok((u, rest))
    ensures HEADER + |u.pdu| <= |input| && u.pdu == input[7..7 + |u.pdu|] && rest == input[7 + |u.pdu|..]
    ensures u.tid == Word(input[0], input[1]) && u.slave == input[6]
    ensures Word(input[2], input[3]) == 0 && Word(input[4], input[5]) == |u.pdu| + 1
  {
  }

  /** A header with protocol id 0 is the one its fields print as: nothing of it is lost. */
  lemma HeaderIsItsFields(input: seq<byte>)
    requires |input| >= HEADER && Word(input[2], input[3]) == 0
    ensures input[..7] == Header(Word(input[0], input[1]), input[6], Word(input[4], input[5]))
  {
    HalvesOfWord(input[0], input[1]);
    HalvesOfWord(input[4], input[5]);
  }

  /** Why input is refused, byte by byte: it ends too early, its protocol id is not zero, or its length
      does not leave 1 to 253 bytes of PDU. */
  lemma RefusedInput(input: seq<byte>)
    ensures NextUnit(input) == Err(InvalidProtocol) <==> |input| >= 7 && (input[2] != 0 || input[3] != 0)
    ensures NextUnit(input) == Err(InvalidLength) <==>
              |input| >= 7 && input[2] == 0 && input[3] == 0 && !(2 <= Word(input[4], input[5]) <= 254)
    ensures NextUnit(input) == Err(EndOfInput) <==>
              |input| < 7 || (input[2] == 0 && input[3] == 0 && 2 <= Word(input[4], input[5]) <= 254
                              && |input| < 6 + (Word(input[4], input[5]) as int))
  {
  }

  function Stream(units: seq<Unit>): seq<byte> {
    if units == [] then [] else Frame(units[0].tid, units[0].slave, units[0].pdu) + Stream(units[1..])
  }

  /** Reads frames until the stream ends or turns out malformed. */
  function ReadAll(input: seq<byte>): seq<Unit>
    decreases |input|
  {
    match NextUnit(input)
    case Err(_) => []
    case Ok(next) => [next.0] + ReadAll(next.1)
  }

  /** A whole conversation survives: any sequence of deliverable responses written to one
      connection is read back as the same sequence. */
  lemma {:induction false} ConversationRoundTrip(units: seq<Unit>)
    requires forall i :: 0 <= i < |units| ==> 1 <= |units[i].pdu| <= 253
    ensures ReadAll(Stream(units)) == units
    decreases |units|
  {
    if units == [] {
      assert NextUnit([]).Err?;
    } else {
      FrameReadBack(units[0].tid, units[0].slave, units[0].pdu, Stream(units[1..]));
      ConversationRoundTrip(units[1..]);
    }
  }

  // ---------- request PDUs ----------

  function ParsePdu(u: Unit): Result<Request, ReadError>
    requires |u.pdu| > 0
  {
    var pdu, fc := u.pdu, u.pdu[0];
    if IsReadFunction(fc) then
      if |pdu| < 5 then Err(PduTooShort)
      else Ok(Request(u.tid, u.slave, fc, Word(pdu[1], pdu[2]), Word(pdu[3], pdu[4]), [], pdu))
    else if IsSingleWrite(fc) then
      if |pdu| < 5 then Err(PduTooShort)
      else Ok(Request(u.tid, u.slave, fc, Word(pdu[1], pdu[2]), 1, pdu[3..5], pdu))
    else if IsMultipleWrite(fc) then
      if |pdu| < 6 || |pdu| < 6 + (pdu[5] as int) then Err(PduTooShort)
      else Ok(Request(u.tid, u.slave, fc, Word(pdu[1], pdu[2]), Word(pdu[3], pdu[4]), pdu[6..6 + (pdu[5] as int)], pdu))
    else Ok(Request(u.tid, u.slave, fc, 0, 0, [], pdu))
  }

  /** parsePDU: fills the request field by field; the bound of the write data is computed in a
      single byte. */
  method ParseRequest(u: Unit) returns (r: Result<Request, ReadError>)
    requires 1 <= |u.pdu| <= 253
    ensures r == ParsePdu(u)
  {
    var pdu := u.pdu;
    var req := Request(u.tid, u.slave, pdu[0], 0, 0, [], pdu);
    if IsReadFunction(req.fc) {
      if |pdu| < 5 { return Err(PduTooShort); }
      req := req.(addr := Word(pdu[1], pdu[2]), qty := Word(pdu[3], pdu[4]));
    } else if IsSingleWrite(req.fc) {
      if |pdu| < 5 { return Err(PduTooShort); }
      req := req.(addr := Word(pdu[1], pdu[2]), qty := 1, data := pdu[3..5]);
    } else if IsMultipleWrite(req.fc) {
      if |pdu| < 6 { return Err(PduTooShort); }
      req := req.(addr := Word(pdu[1], pdu[2]), qty := Word(pdu[3], pdu[4]));
      var byteCount := pdu[5];
      if |pdu| < 6 + (byteCount as int) { return Err(PduTooShort); }
      var end: byte := (6 + (byteCount as int)) % 256;
      req := req.(data := pdu[6..end]);
    }
    r := Ok(req);
  }

  /** readRequest: header checks, then the PDU. */
  method ReadRequest(input: seq<byte>) returns (r: Result<Request, ReadError>, rest: seq<byte>)
    ensures r == match NextUnit(input)
                 case Err(e) => Err(e)
                 case Ok(next) => ParsePdu(next.0)
    ensures NextUnit(input).Ok? ==> rest == NextUnit(input).value.1
  {
    rest := input;
    if |input| < HEADER { return Err(EndOfInput), rest; }
    var header := HeaderFields(input);
    if header.protocol != 0 { return Err(InvalidProtocol), rest; }
    var pduLen := (header.length as int) - 1;
    if pduLen < 1 || pduLen > 253 { return Err(InvalidLength), rest; }
    if |input| < HEADER + pduLen { return Err(EndOfInput), rest; }
    var unit := Unit(header.tid, header.slave, input[7..7 + pduLen]);
    rest := input[7 + pduLen..];
    r := ParseRequest(unit);
  }

  /** The PDU of a request with a standard function code. */
  function EncodePdu(fc: byte, addr: word, qty: word, data: seq<byte>): seq<byte>
    requires |data| < 256
  {
    [fc, Hi(addr), Lo(addr)] +
    if IsSingleWrite(fc) then data
    else if IsMultipleWrite(fc) then [Hi(qty), Lo(qty), |data|] + data
    else [Hi(qty), Lo(qty)]
  }

  /** A request that the parser can produce. */
  predicate Representable(fc: byte, qty: word, data: seq<byte>) {
    || (IsReadFunction(fc) && data == [])
    || (IsSingleWrite(fc) && qty == 1 && |data| == 2)
    || (IsMultipleWrite(fc) && |data| <= 247)
  }

  lemma EncodedHead(fc: byte, addr: word, tail: seq<byte>)
    ensures var pdu := [fc, Hi(addr), Lo(addr)] + tail;
      pdu[0] == fc && Word(pdu[1], pdu[2]) == addr && pdu[3..] == tail
  {
    WordOfHalves(addr);
  }

  lemma ParseSingleWrite(tid: word, slave: byte, fc: byte, addr: word, data: seq<byte>, pdu: seq<byte>)
    requires IsSingleWrite(fc) && |data| == 2 && pdu == [fc, Hi(addr), Lo(addr)] + data
    ensures ParsePdu(Unit(tid, slave, pdu)) == Ok(Request(tid, slave, fc, addr, 1, data, pdu))
  {
    EncodedHead(fc, addr, data);
    assert pdu[3..5] == pdu[3..];
  }

  lemma ParseRead(tid: word, slave: byte, fc: byte, addr: word, qty: word, pdu: seq<byte>)
    requires IsReadFunction(fc) && pdu == [fc, Hi(addr), Lo(addr)] + [Hi(qty), Lo(qty)]
    ensures ParsePdu(Unit(tid, slave, pdu)) == Ok(Request(tid, slave, fc, addr, qty, [], pdu))
  {
    EncodedHead(fc, addr, [Hi(qty), Lo(qty)]);
    WordOfHalves(qty);
    assert pdu[3] == pdu[3..][0] && pdu[4] == pdu[3..][1];
  }

  lemma ParseMultipleWrite(tid: word, slave: byte, fc: byte, addr: word, qty: word, data: seq<byte>, pdu: seq<byte>)
    requires IsMultipleWrite(fc) && |data| <= 247 && pdu == [fc, Hi(addr), Lo(addr)] + ([Hi(qty), Lo(qty), |data|] + data)
    ensures ParsePdu(Unit(tid, slave, pdu)) == Ok(Request(tid, slave, fc, addr, qty, data, pdu))
  {
    var tail := [Hi(qty), Lo(qty), |data|] + data;
    EncodedHead(fc, addr, tail);
    WordOfHalves(qty);
    assert pdu[3] == tail[0] && pdu[4] == tail[1] && pdu[5] == tail[2];
    assert pdu[6..6 + |data|] == tail[3..];
    assert tail[3..] == data;
  }

  /** Parsing an encoded request gives back every field. */
  lemma ParseUndoesEncode(tid: word, slave: byte, fc: byte, addr: word, qty: word, data: seq<byte>)
    requires Representable(fc, qty, data)
    ensures var pdu := EncodePdu(fc, addr, qty, data);
      && 5 <= |pdu| <= 253
      && ParsePdu(Unit(tid, slave, pdu)) == Ok(Request(tid, slave, fc, addr, qty, data, pdu))
  {
    var pdu := EncodePdu(fc, addr, qty, data);
    if IsSingleWrite(fc) {
      ParseSingleWrite(tid, slave, fc, addr, data, pdu);
    } else if IsMultipleWrite(fc) {
      ParseMultipleWrite(tid, slave, fc, addr, qty, data, pdu);
    } else {
      ParseRead(tid, slave, fc, addr, qty, pdu);
    }
  }

  /** Every accepted request with a standard function code is representable, and its PDU is its
      encoding, possibly followed by bytes that are ignored: nothing is lost or moved. */
  lemma EncodeUndoesParse(u: Unit)
    requires 1 <= |u.pdu| <= 253 && ParsePdu(u).Ok? && (IsReadFunction(u.pdu[0]) || IsWriteFunction(u.pdu[0]))
    ensures var q := ParsePdu(u).value;
      && q.tid == u.tid && q.slave == u.slave && q.pdu == u.pdu
      && Representable(q.fc, q.qty, q.data)
      && EncodePdu(q.fc, q.addr, q.qty, q.data) <= u.pdu
  {
    var q, pdu := ParsePdu(u).value, u.pdu;
    HalvesOfWord(pdu[1], pdu[2]);
    if !IsSingleWrite(q.fc) { HalvesOfWord(pdu[3], pdu[4]); }
    var enc := EncodePdu(q.fc, q.addr, q.qty, q.data);
    assert enc == pdu[..|enc|];
  }

  /** The function codes, by name of the standard: reads are 1 to 4, writes 5, 6, 15 and 16, and no code is
      both. */
  lemma FunctionCodes(fc: byte)
    ensures IsReadFunction(fc) <==> 1 <= fc <= 4
    ensures IsWriteFunction(fc) <==> fc == 5 || fc == 6 || fc == 15 || fc == 16
    ensures !(IsReadFunction(fc) && IsWriteFunction(fc))
  {
  }

  /** A PDU is parsed exactly if it is long enough: for a read or single write five bytes, for a multiple
      write six and the bytes it announces; any other PDU always is. */
  lemma ParsedExactlyIfLongEnough(u: Unit)
    requires 1 <= |u.pdu| <= 253
    ensures var fc := u.pdu[0];
      ParsePdu(u).Ok? <==>
        && (fc in {1, 2, 3, 4, 5, 6} ==> |u.pdu| >= 5)
        && (fc in {15, 16} ==> |u.pdu| >= 6 && |u.pdu| >= 6 + (u.pdu[5] as int))
  {
  }

  // ---------- validation ----------

  /** ValidateRequest on a non-nil request: the exception code of the refusal, if any. */
  function Validate(q: Request): Option<nat> {
    if q.fc == 0x01 || q.fc == 0x02 then (if q.qty < 1 || q.qty > 2000 then Some(0x03) else RangeCheck(q))
    else if q.fc == 0x03 || q.fc == 0x04 then (if q.qty < 1 || q.qty > 125 then Some(0x03) else RangeCheck(q))
    else if q.fc == 0x05 then
      if |q.data| < 2 then Some(0x03)
      else if Word(q.data[0], q.data[1]) != 0x0000 && Word(q.data[0], q.data[1]) != 0xFF00 then Some(0x03)
      else RangeCheck(q)
    else if q.fc == 0x06 then (if |q.data| < 2 then Some(0x03) else RangeCheck(q))
    else if q.fc == 0x0F then
      if q.qty < 1 || q.qty > 1968 then Some(0x03)
      else if |q.data| != ((q.qty + 7) % 65536) / 8 then Some(0x03)
      else RangeCheck(q)
    else if q.fc == 0x10 then
      if q.qty < 1 || q.qty > 123 then Some(0x03)
      else if |q.data| != q.qty * 2 then Some(0x03)
      else RangeCheck(q)
    else if |q.pdu| < 1 then Some(0x01)
    else if q.pdu[0] != q.fc then Some(0x01)
    else None
  }

  function RangeCheck(q: Request): Option<nat> { if q.addr + q.qty > 65536 then Some(0x02) else None }

  /** The quantity and data of a request with a standard function code are legal. */
  predicate LegalContent(q: Request) {
    if q.fc == 1 || q.fc == 2 then 1 <= q.qty <= 2000
    else if q.fc == 3 || q.fc == 4 then 1 <= q.qty <= 125
    else if q.fc == 5 then |q.data| >= 2 && (q.data[..2] == [0x00, 0x00] || q.data[..2] == [0xFF, 0x00])
    else if q.fc == 6 then |q.data| >= 2
    else if q.fc == 15 then 1 <= q.qty <= 1968 && |q.data| == BytesFor(q.qty)
    else 1 <= q.qty <= 123 && |q.data| == 2 * q.qty
  }

  /** Validation accepts exactly the legal requests, and says what is wrong with the others: a standard
      request with illegal content is an illegal value, one with legal content past the last address an
      illegal address; a request with any other code is legal if its PDU begins with that code. */
  lemma ValidationIsExact(q: Request)
    ensures IsReadFunction(q.fc) || IsWriteFunction(q.fc) ==>
              && (Validate(q) == Some(0x03) <==> !LegalContent(q))
              && (Validate(q) == Some(0x02) <==> LegalContent(q) && q.addr + q.qty > 65536)
              && (Validate(q) == None <==> LegalContent(q) && q.addr + q.qty <= 65536)
    ensures !IsReadFunction(q.fc) && !IsWriteFunction(q.fc) ==>
              Validate(q) == if q.pdu != [] && q.pdu[0] == q.fc then None else Some(0x01)
  {
    if q.fc == 5 && |q.data| >= 2 {
      assert q.data[..2] == [q.data[0], q.data[1]];
      assert Word(q.data[0], q.data[1]) == 0xFF00 <==> q.data[0] == 0xFF && q.data[1] == 0;
    }
  }

  /** A legal standard request, encoded, framed and sent, is read, parsed and accepted as it was meant. */
  lemma LegalRequestIsServed(q: Request, rest: seq<byte>)
    requires LegalContent(q) && q.addr + q.qty <= 65536 && Representable(q.fc, q.qty, q.data) && q.pdu == EncodePdu(q.fc, q.addr, q.qty, q.data)
    ensures NextUnit(Frame(q.tid, q.slave, q.pdu) + rest) == Ok((Unit(q.tid, q.slave, q.pdu), rest))
    ensures ParsePdu(Unit(q.tid, q.slave, q.pdu)) == Ok(q) && Validate(q).None?
  {
    ParseUndoesEncode(q.tid, q.slave, q.fc, q.addr, q.qty, q.data);
    FrameReadBack(q.tid, q.slave, q.pdu, rest);
    ValidationIsExact(q);
  }

  /** A PDU with any other function code goes through untouched: read, parsed to itself and accepted. */
  lemma VendorRequestIsServed(tid: word, slave: byte, pdu: seq<byte>, rest: seq<byte>)
    requires 1 <= |pdu| <= 253 && !IsReadFunction(pdu[0]) && !IsWriteFunction(pdu[0])
    ensures NextUnit(Frame(tid, slave, pdu) + rest) == Ok((Unit(tid, slave, pdu), rest))
    ensures var q := Request(tid, slave, pdu[0], 0, 0, [], pdu);
      ParsePdu(Unit(tid, slave, pdu)) == Ok(q) && Validate(q).None?
  {
    FrameReadBack(tid, slave, pdu, rest);
  }

  /** What an accepted request guarantees downstream of validation: its range does not wrap, a read
      asks for a quantity every codec step can represent, a multiple write carries exactly the data
      its quantity calls for, and a refusal always has one of the three validation codes. */
  lemma {:induction false} ValidatedRequest(q: Request)
    ensures Validate(q).Some? ==> Validate(q).value in {0x01, 0x02, 0x03}
    ensures Validate(q).None? && (IsReadFunction(q.fc) || IsWriteFunction(q.fc)) ==> q.addr + q.qty <= E.ADDRESSES
    ensures Validate(q).None? && IsReadFunction(q.fc) ==> ValidQuantity(q.fc, q.qty)
    ensures Validate(q).None? && IsMultipleWrite(q.fc) ==>
              |q.data| == (if q.fc == 0x0F then BytesFor(q.qty) else 2 * q.qty) && Representable(q.fc, q.qty, q.data)
  {
  }

  /** Served from the cache or read from the device, the response to a validated read reaches the
      client: its frame is read back as the same response. */
  lemma ReadResponseIsDeliverable(q: Request, values: seq<seq<byte>>, rest: seq<byte>)
    requires Validate(q).None? && IsReadFunction(q.fc)
    ensures var resp := Assemble(q.fc, q.qty, values);
      NextUnit(Frame(q.tid, q.slave, resp) + rest) == Ok((Unit(q.tid, q.slave, resp), rest))
  {
    var resp := Assemble(q.fc, q.qty, values);
    ValidatedRequest(q);
    assert 2 <= |resp| <= 252 by { ResponseFits(q.fc, q.qty, values); }
    FrameReadBack(q.tid, q.slave, resp, rest);
  }
}
