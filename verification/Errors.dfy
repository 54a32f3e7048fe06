/**
 Error classification and the downstream exception code, over arbitrary trees of wrapped errors.
 `errors.Is` and `errors.As` look at the nodes of the tree in pre-order; `As` takes the first
 node of the wanted type.

 An error that answers two questions at once is two nodes, one above the other: the system's error
 numbers for a reset, refused or unreachable connection are net.Errors that do not time out and
 closed-connection sentinels, `NetError(false, [ClosedSentinel])`.
 */
module Errors {
  import opened Wrappers

  datatype Kind = ProtocolException | TransportTimeout | TransportClosed | ContextDeadline | ContextCanceled | LocalError

  datatype Err =
    | DeadlineExceeded
    | Canceled
    | ClosedSentinel                                  // EOF, closed or reset connection, unreachable host, broken pipe
    | Plain                                           // any other leaf
    | ModbusError(fc: nat, code: nat)                 // exception reply seen by the Modbus library
    | NetError(timeout: bool, causes: seq<Err>)       // any net.Error, with what it wraps
    | Annotated(inner: Err)                           // fmt.Errorf with one %w
    | Joined(errs: seq<Err>)                          // errors.Join
    | ValidationError(code: nat, inner: Err)
    | UpstreamError(inner: Err)
    | CoalescingError(inner: Err, coalesced: bool)
    | RequestError(kind: Kind, code: nat, attempts: nat, inner: Err)

  const ILLEGAL_FUNCTION := 0x01
  const ILLEGAL_ADDRESS := 0x02
  const ILLEGAL_VALUE := 0x03
  const SERVER_FAILURE := 0x04
  const GATEWAY_TARGET_FAILED := 0x0B

  function Nodes(e: Err): (ns: seq<Err>)
    ensures |ns| > 0 && ns[0] == e
    decreases e, 1
  {
    [e] + match e
          case NetError(_, causes) => NodesOfAll(causes)
          case Joined(errs) => NodesOfAll(errs)
          case Annotated(inner) => Nodes(inner)
          case ValidationError(_, inner) => Nodes(inner)
          case UpstreamError(inner) => Nodes(inner)
          case CoalescingError(inner, _) => Nodes(inner)
          case RequestError(_, _, _, inner) => Nodes(inner)
          case _ => []
  }

  function NodesOfAll(es: seq<Err>): seq<Err>
    decreases es, 0
  {
    if es == [] then [] else Nodes(es[0]) + NodesOfAll(es[1..])
  }

  /** The answers to all the `errors.Is` and `errors.As` questions the program asks of an error:
      which sentinels are among its nodes, and the first node of each type. */
  datatype Findings = Findings(deadline: bool, canceled: bool, closed: bool, upstream: bool,
                               validation: Option<Err>, modbus: Option<Err>, net: Option<Err>, request: Option<Err>)
  {
    /** Each node found is of the type that was looked for. */
    predicate Typed() {
      && (validation.Some? ==> validation.value.ValidationError?)
      && (modbus.Some? ==> modbus.value.ModbusError?)
      && (net.Some? ==> net.value.NetError?)
      && (request.Some? ==> request.value.RequestError?)
    }
  }

  const Nothing := Findings(false, false, false, false, None, None, None, None)

  /** Node n comes before everything found in f. */
  function Before(n: Err, f: Findings): (r: Findings)
    ensures f.Typed() ==> r.Typed()
  {
    match n
    case DeadlineExceeded => f.(deadline := true)
    case Canceled => f.(canceled := true)
    case ClosedSentinel => f.(closed := true)
    case UpstreamError(_) => f.(upstream := true)
    case ValidationError(_, _) => f.(validation := Some(n))
    case ModbusError(_, _) => f.(modbus := Some(n))
    case NetError(_, _) => f.(net := Some(n))
    case RequestError(_, _, _, _) => f.(request := Some(n))
    case _ => f
  }

  function SearchIn(ns: seq<Err>): (f: Findings)
    ensures f.Typed()
  {
    if ns == [] then Nothing else Before(ns[0], SearchIn(ns[1..]))
  }

  function Search(e: Err): (f: Findings)
    ensures f.Typed()
  {
    SearchIn(Nodes(e))
  }

  /** classifyError on a non-nil error: kind and exception code. */
  function ClassifyFound(f: Findings): (Kind, nat)
    requires f.Typed()
  {
    if f.deadline then (ContextDeadline, 0)
    else if f.canceled then (ContextCanceled, 0)
    else if f.validation.Some? then (LocalError, f.validation.value.code)
    else if f.upstream then (TransportClosed, 0)
    else if f.modbus.Some? then (ProtocolException, f.modbus.value.code)
    else if f.net.Some? && f.net.value.timeout then (TransportTimeout, 0)
    else if f.closed then (TransportClosed, 0)
    else if f.net.Some? then (TransportClosed, 0)
    else (LocalError, 0)
  }

  /** ErrorKindOf */
  function KindFound(f: Findings): Kind
    requires f.Typed()
  {
    if f.request.Some? then f.request.value.kind else ClassifyFound(f).0
  }

  /** DownstreamException */
  function ExceptionFound(f: Findings): nat
    requires f.Typed()
  {
    if f.request.Some? && f.request.value.kind.ProtocolException? then f.request.value.code
    else if f.request.Some? && f.request.value.kind.LocalError? && f.request.value.code != 0 then f.request.value.code
    else if f.upstream then GATEWAY_TARGET_FAILED
    else if f.modbus.Some? then f.modbus.value.code
    else if f.validation.Some? then f.validation.value.code
    else match KindFound(f)
         case TransportTimeout => GATEWAY_TARGET_FAILED
         case TransportClosed => GATEWAY_TARGET_FAILED
         case ContextDeadline => GATEWAY_TARGET_FAILED
         case ContextCanceled => GATEWAY_TARGET_FAILED
         case _ => SERVER_FAILURE
  }

  function Classify(e: Err): (Kind, nat) { ClassifyFound(Search(e)) }

  function KindOf(e: Err): Kind { KindFound(Search(e)) }

  function DownstreamException(e: Err): nat { ExceptionFound(Search(e)) }

  function MakeRequestError(e: Err, attempts: nat): Err {
    RequestError(Classify(e).0, Classify(e).1, attempts, e)
  }

  predicate TransportKind(k: Kind) { k.TransportTimeout? || k.TransportClosed? }

  predicate ContextKind(k: Kind) { k.ContextDeadline? || k.ContextCanceled? }

  /** The exception byte of function code fc: fc | 0x80. */
  function ExceptionOf(fc: nat): nat { if (fc / 128) % 2 == 1 then fc else fc + 128 }

  /** The device itself answered this request with a nonzero exception code. */
  predicate Genuine(fc: nat, raw: Err) {
    var m := Search(raw).modbus;
    m.Some? && m.value.fc == ExceptionOf(fc) && m.value.code != 0
  }

  /** classifyRequestPathError on a non-nil error. */
  function OnRequestPath(fc: nat, raw: Err): Err {
    if Search(raw).modbus.Some? then (if Genuine(fc, raw) then raw else UpstreamError(raw))
    else if Classify(raw).0.LocalError? then UpstreamError(raw)
    else raw
  }

  // ---------- what the search finds, and what it means ----------

  /** What `errors.Is` and `errors.As` can ask for. */
  datatype Sort = ADeadline | ACancel | AClosed | AnUpstream | AValidation | AModbus | ANet | ARequest | NoSort

  function SortOf(e: Err): Sort {
    match e
    case DeadlineExceeded => ADeadline
    case Canceled => ACancel
    case ClosedSentinel => AClosed
    case UpstreamError(_) => AnUpstream
    case ValidationError(_, _) => AValidation
    case ModbusError(_, _) => AModbus
    case NetError(_, _) => ANet
    case RequestError(_, _, _, _) => ARequest
    case _ => NoSort
  }

  /** The answer f gives for a sort: nothing of it, or node n (of a sentinel only that it is there). */
  predicate Answers(f: Findings, sort: Sort, found: Option<Err>) {
    match sort
    case ADeadline => f.deadline == found.Some?
    case ACancel => f.canceled == found.Some?
    case AClosed => f.closed == found.Some?
    case AnUpstream => f.upstream == found.Some?
    case AValidation => f.validation == found
    case AModbus => f.modbus == found
    case ANet => f.net == found
    case ARequest => f.request == found
    case NoSort => true
  }

  /** The search answers as `errors.Is` and `errors.As` do: with the first node of the sort, at position
      i, or with nothing if there is none. */
  lemma {:induction false} SearchIsErrorsAs(ns: seq<Err>, sort: Sort) returns (i: nat)
    ensures i <= |ns| && (forall j :: 0 <= j < i ==> SortOf(ns[j]) != sort) && (i < |ns| ==> SortOf(ns[i]) == sort)
    ensures Answers(SearchIn(ns), sort, if i < |ns| then Some(ns[i]) else None)
    decreases |ns|
  {
    i := 0;
    if ns != [] {
      var rest := ns[1..];
      var k := SearchIsErrorsAs(rest, sort);
      AnswersWithFront(ns[0], SearchIn(rest), sort, if k < |rest| then Some(rest[k]) else None);
      if SortOf(ns[0]) != sort { i := k + 1; }
    }
  }

  lemma AnswersWithFront(n: Err, f: Findings, sort: Sort, found: Option<Err>)
    requires Answers(f, sort, found)
    ensures Answers(Before(n, f), sort, if SortOf(n) == sort then Some(n) else found)
  {
  }

  /** The connection failed: a net error or a closed-connection sentinel is there. */
  predicate LinkBroken(e: Err) { Search(e).net.Some? || Search(e).closed }

  /** The first net error timed out. */
  predicate LinkTimedOut(e: Err) { Search(e).net.Some? && Search(e).net.value.NetError? && Search(e).net.value.timeout }

  /** What an error from outside that is no Modbus exception is classified as, by what it contains: the
      end of a context before all else, then a timeout, then a broken connection; anything else is local. */
  lemma ForeignKind(e: Err)
    requires Foreign(e) && Search(e).modbus.None?
    ensures Classify(e).0 == (if Search(e).deadline then ContextDeadline
                              else if Search(e).canceled then ContextCanceled
                              else if LinkTimedOut(e) then TransportTimeout
                              else if LinkBroken(e) then TransportClosed
                              else LocalError)
    ensures Classify(e).1 == 0
    ensures TransportKind(Classify(e).0) <==> !MentionsContext(e) && LinkBroken(e)
    ensures Classify(e).0.LocalError? <==> !MentionsContext(e) && !LinkBroken(e)
  {
  }

  // ---------- wrappers ----------

  /** Looking through a wrapper: only the wrapper's own type can change an answer. */
  lemma SearchThrough(w: Err)
    requires w.Annotated? || w.ValidationError? || w.UpstreamError? || w.CoalescingError? || w.RequestError?
    ensures Search(w) == Before(w, Search(w.inner))
  {
    assert Nodes(w)[1..] == Nodes(w.inner);
  }

  datatype Wrapper = Note | Coalesced(shared: bool)

  /** An error inside any stack of annotations and coalescing attributions. */
  function Wrapped(ws: seq<Wrapper>, e: Err): Err {
    if ws == [] then e
    else match ws[0]
         case Note => Annotated(Wrapped(ws[1..], e))
         case Coalesced(shared) => CoalescingError(Wrapped(ws[1..], e), shared)
  }

  lemma {:induction false} SearchWrapped(ws: seq<Wrapper>, e: Err)
    ensures Search(Wrapped(ws, e)) == Search(e)
    decreases |ws|
  {
    if ws != [] {
      SearchWrapped(ws[1..], e);
      SearchThrough(Wrapped(ws, e));
    }
  }

  /** Annotations and coalescing attribution change neither kind nor code, for any error tree. */
  lemma WrappersAreTransparent(ws: seq<Wrapper>, e: Err)
    ensures KindOf(Wrapped(ws, e)) == KindOf(e)
    ensures Classify(Wrapped(ws, e)) == Classify(e)
    ensures DownstreamException(Wrapped(ws, e)) == DownstreamException(e)
  {
    SearchWrapped(ws, e);
  }

  /** The one family of trees for which a RequestError hides what the bare error would report: a
      validation failure with a nonzero code and no context error, in the same tree as an upstream
      or Modbus error that maps to another code. */
  predicate ValidationHides(e: Err) {
    var f := Search(e);
    && !f.deadline && !f.canceled
    && f.validation.Some? && f.validation.value.code != 0
    && (if f.upstream then f.validation.value.code != GATEWAY_TARGET_FAILED
        else f.modbus.Some? && f.validation.value.code != f.modbus.value.code)
  }

  /** Wrapping an error that is not yet a RequestError keeps its kind; it keeps the downstream
      code exactly outside ValidationHides. */
  lemma RequestErrorTransparent(e: Err, attempts: nat)
    requires Search(e).request.None?
    ensures KindOf(MakeRequestError(e, attempts)) == KindOf(e)
    ensures DownstreamException(MakeRequestError(e, attempts)) == DownstreamException(e) <==> !ValidationHides(e)
  {
    SearchThrough(MakeRequestError(e, attempts));
  }

  /** A RequestError has the last word on its kind, under any wrappers and whatever it wraps; and on its code, if
      it is a protocol exception or a local error with a code. */
  lemma RequestErrorDecides(kind: Kind, code: nat, attempts: nat, inner: Err, ws: seq<Wrapper>)
    ensures KindOf(Wrapped(ws, RequestError(kind, code, attempts, inner))) == kind
    ensures kind.ProtocolException? || (kind.LocalError? && code != 0) ==>
              DownstreamException(Wrapped(ws, RequestError(kind, code, attempts, inner))) == code
  {
    SearchWrapped(ws, RequestError(kind, code, attempts, inner));
    SearchThrough(RequestError(kind, code, attempts, inner));
  }

  lemma SearchHead(n: Err, ns: seq<Err>)
    ensures SearchIn([n] + ns) == Before(n, SearchIn(ns))
  {
    assert ([n] + ns)[1..] == ns;
  }

  lemma ExampleNodes(v: Err, m: Err)
    requires v == ValidationError(ILLEGAL_VALUE, Plain) && m == ModbusError(0x83, 2)
    ensures Nodes(Joined([v, m])) == [Joined([v, m])] + ([v] + ([Plain] + ([m] + [])))
  {
    assert [v, m][1..] == [m] && [m][1..] == [];
    assert Nodes(m) == [m] && Nodes(v) == [v, Plain];
    assert NodesOfAll([]) == [];
    assert NodesOfAll([m]) == [m];
  }

  /** The hiding family is not empty: a validation failure joined with a device exception. */
  lemma ValidationCanHide(e: Err)
    requires e == Joined([ValidationError(ILLEGAL_VALUE, Plain), ModbusError(0x83, 2)])
    ensures Search(e).request.None? && ValidationHides(e)
    ensures DownstreamException(e) == 2 && DownstreamException(MakeRequestError(e, 0)) == ILLEGAL_VALUE
  {
    var v, m := ValidationError(ILLEGAL_VALUE, Plain), ModbusError(0x83, 2);
    ExampleNodes(v, m);
    SearchHead(e, [v] + ([Plain] + ([m] + [])));
    SearchHead(v, [Plain] + ([m] + []));
    SearchHead(Plain, [m] + []);
    SearchHead(m, []);
    assert Search(e) == Nothing.(validation := Some(v), modbus := Some(m));
    SearchThrough(MakeRequestError(e, 0));
  }

  // ---------- what the client reports ----------

  /** Errors from outside: they cannot contain the types private to this program. */
  predicate Foreign(e: Err) {
    var f := Search(e);
    f.validation.None? && !f.upstream && f.request.None?
  }

  predicate MentionsContext(e: Err) { Search(e).deadline || Search(e).canceled }

  /** What is reported for an error that becomes a RequestError under further wrappers. */
  lemma ReportedAs(e: Err, attempts: nat, ws: seq<Wrapper>)
    ensures var r := Wrapped(ws, MakeRequestError(e, attempts));
      && KindOf(r) == Classify(e).0
      && DownstreamException(r) ==
           var f := Search(e);
           if Classify(e).0.ProtocolException? then Classify(e).1
           else if Classify(e).0.LocalError? && Classify(e).1 != 0 then Classify(e).1
           else if f.upstream then GATEWAY_TARGET_FAILED
           else if f.modbus.Some? then f.modbus.value.code
           else if f.validation.Some? then f.validation.value.code
           else if Classify(e).0.LocalError? then SERVER_FAILURE
           else GATEWAY_TARGET_FAILED
  {
    SearchThrough(MakeRequestError(e, attempts));
    SearchWrapped(ws, MakeRequestError(e, attempts));
  }

  /** The kinds used inside the retry loop, before anything is wrapped. */
  lemma PathKinds(fc: nat, raw: Err)
    requires Foreign(raw)
    ensures Search(OnRequestPath(fc, raw)) == if OnRequestPath(fc, raw) == raw then Search(raw) else Search(raw).(upstream := true)
    ensures var k := Classify(OnRequestPath(fc, raw)).0;
      && (k.ProtocolException? <==> Genuine(fc, raw) && !MentionsContext(raw))
      && (ContextKind(k) <==> MentionsContext(raw))
      && (TransportKind(k) <==> !Genuine(fc, raw) && !MentionsContext(raw))
  {
    SearchThrough(UpstreamError(raw));
  }

  /** For every error tree a wire attempt can produce, under any wrappers: the device's own code
      for a genuine exception and 0x0B for everything else, never zero; and the failure counts as
      a protocol exception exactly when it is genuine and no context error is involved, as a
      transport failure exactly when it is neither. */
  lemma WireErrorMapping(fc: nat, raw: Err, attempts: nat, ws: seq<Wrapper>)
    requires Foreign(raw)
    ensures var e := Wrapped(ws, MakeRequestError(OnRequestPath(fc, raw), attempts));
      && DownstreamException(e) == (if Genuine(fc, raw) then Search(raw).modbus.value.code else GATEWAY_TARGET_FAILED)
      && DownstreamException(e) != 0
      && (KindOf(e).ProtocolException? <==> Genuine(fc, raw) && !MentionsContext(raw))
      && (ContextKind(KindOf(e)) <==> MentionsContext(raw))
      && (TransportKind(KindOf(e)) <==> !Genuine(fc, raw) && !MentionsContext(raw))
  {
    PathKinds(fc, raw);
    ReportedAs(OnRequestPath(fc, raw), attempts, ws);
  }

  /** The kind a wire attempt's failure is reported as, by what it contains. */
  lemma WireErrorKind(fc: nat, raw: Err, attempts: nat, ws: seq<Wrapper>)
    requires Foreign(raw)
    ensures KindOf(Wrapped(ws, MakeRequestError(OnRequestPath(fc, raw), attempts)))
            == (if Search(raw).deadline then ContextDeadline
                else if Search(raw).canceled then ContextCanceled
                else if Genuine(fc, raw) then ProtocolException
                else if Search(raw).modbus.None? && LinkTimedOut(raw) then TransportTimeout
                else TransportClosed)
  {
    PathKinds(fc, raw);
    ReportedAs(OnRequestPath(fc, raw), attempts, ws);
    if Search(raw).modbus.None? { ForeignKind(raw); }
  }

  /** A failed connect, by what its error contains: the end of a context, a timeout or a broken connection
      give 0x0B and their kind, anything else is local and gives 0x04. */
  lemma ConnectErrorMapping(raw: Err, attempts: nat, ws: seq<Wrapper>)
    requires Foreign(raw) && Search(raw).modbus.None?
    ensures var e := Wrapped(ws, MakeRequestError(Annotated(raw), attempts));
      && DownstreamException(e) == (if MentionsContext(raw) || LinkBroken(raw) then GATEWAY_TARGET_FAILED else SERVER_FAILURE)
      && KindOf(e) == (if Search(raw).deadline then ContextDeadline
                       else if Search(raw).canceled then ContextCanceled
                       else if LinkTimedOut(raw) then TransportTimeout
                       else if LinkBroken(raw) then TransportClosed
                       else LocalError)
  {
    SearchThrough(Annotated(raw));
    ForeignKind(raw);
    ReportedAs(Annotated(raw), attempts, ws);
  }

  /** The end of the caller's context gives 0x0B; a rejected request keeps its validation code. */
  lemma LocalErrorMapping(code: nat, attempts: nat, ws: seq<Wrapper>)
    requires code != 0
    ensures DownstreamException(Wrapped(ws, MakeRequestError(DeadlineExceeded, attempts))) == GATEWAY_TARGET_FAILED
    ensures DownstreamException(Wrapped(ws, MakeRequestError(Canceled, attempts))) == GATEWAY_TARGET_FAILED
    ensures DownstreamException(Wrapped(ws, MakeRequestError(ValidationError(code, Plain), attempts))) == code
    ensures KindOf(Wrapped(ws, MakeRequestError(DeadlineExceeded, attempts))) == ContextDeadline
    ensures KindOf(Wrapped(ws, MakeRequestError(Canceled, attempts))) == ContextCanceled
    ensures KindOf(Wrapped(ws, MakeRequestError(ValidationError(code, Plain), attempts))) == LocalError
  {
    LeafFindings(DeadlineExceeded);
    LeafFindings(Canceled);
    LeafFindings(Plain);
    SearchThrough(ValidationError(code, Plain));
    ReportedAs(DeadlineExceeded, attempts, ws);
    ReportedAs(Canceled, attempts, ws);
    ReportedAs(ValidationError(code, Plain), attempts, ws);
  }

  lemma LeafFindings(e: Err)
    requires e.DeadlineExceeded? || e.Canceled? || e.Plain?
    ensures Search(e) == Findings(e.DeadlineExceeded?, e.Canceled?, false, false, None, None, None, None)
  {
    assert Nodes(e) == [e] + [];
    SearchHead(e, []);
  }
}
