/**
 An auditor that reads only the callbacks of a parser and checks message framing: the
 announced body length is the decimal value of the Content-Length header, and the body
 bytes delivered are exactly what the headers or the chunk sizes announced.
 */
module HttpFraming {
  import opened HttpChars
  import opened HttpMachine
  import opened HttpRun
  import opened Options

  function LowerAll(s: seq<Byte>): seq<Byte> {
    if s == [] then [] else LowerAll(s[..|s| - 1]) + [Lower(s[|s| - 1])]
  }

  /** The decimal value of the digits in s; anything else in s is skipped. */
  function Decimal(s: seq<Byte>): nat {
    if s == [] then 0
    else
      var c := s[|s| - 1];
      if IsNum(c) then Decimal(s[..|s| - 1]) * 10 + DigitValue(c) else Decimal(s[..|s| - 1])
  }

  datatype Promise = NoMessage | Bytes(n: nat) | Chunks | UntilEof

  /** `last` is the kind of the last event if it was data. */
  datatype Audit = Audit(
    last: Option<DataKind>, name: seq<Byte>, value: seq<Byte>, length: Option<nat>,
    promise: Promise, body: nat, chunkTotal: nat, chunkSize: nat, chunkBody: nat, ok: bool)

  const NEW_AUDIT := Audit(None, [], [], None, NoMessage, 0, 0, 0, 0, true)

  /** The header value has ended: a Content-Length with a value announces a length. */
  function Announced(u: Audit): Option<nat> {
    if u.last == Some(Value) && u.value != [] && LowerAll(u.name) == CONTENT_LENGTH
    then Some(Decimal(u.value))
    else u.length
  }

  predicate LengthHonest(u: Audit, length: nat) {
    length == if Announced(u).Some? then Announced(u).value else NO_LENGTH
  }

  predicate BodyComplete(u: Audit) {
    match u.promise
    case NoMessage => false
    case Bytes(n) => u.body == n
    case Chunks => u.body == u.chunkTotal
    case UntilEof => true
  }

  function AuditData(u: Audit, k: DataKind, b: seq<Byte>): Audit {
    var v := u.(last := Some(k));
    match k
    case Field =>
      if u.last == Some(Field) then v.(name := u.name + b)
      else v.(length := Announced(u), name := b, value := [])
    case Value => v.(value := if u.last == Some(Value) then u.value + b else b)
    case Body => v.(body := u.body + |b|, chunkBody := u.chunkBody + |b|)
    case _ => v
  }

  function PromiseOf(length: nat, chunked: bool, noBody: bool, untilEof: bool): Promise {
    if noBody then Bytes(0)
    else if chunked then Chunks
    else if length != NO_LENGTH then Bytes(length)
    else if untilEof then UntilEof
    else Bytes(0)
  }

  function AuditStep(u: Audit, e: Event): Audit {
    match e
    case Data(k, b) => AuditData(u, k, b)
    case OnMessageBegin =>
      u.(last := None, name := [], value := [], length := None)
    case OnHeadersComplete(length, chunked, noBody, untilEof) =>
      u.(last := None, promise := PromiseOf(length, chunked, noBody, untilEof), body := 0, chunkTotal := 0,
         ok := u.ok && LengthHonest(u, length))
    case OnChunkHeader(size) =>
      u.(last := None, chunkTotal := u.chunkTotal + size, chunkSize := size, chunkBody := 0)
    case OnChunkComplete => u.(last := None, ok := u.ok && u.chunkBody == u.chunkSize)
    case OnMessageComplete => u.(last := None, ok := u.ok && BodyComplete(u))
  }

  function AuditOf(t: seq<Event>): Audit {
    if t == [] then NEW_AUDIT else AuditStep(AuditOf(t[..|t| - 1]), t[|t| - 1])
  }

  function AuditAll(u: Audit, es: seq<Event>): Audit
    decreases |es|
  {
    if es == [] then u else AuditAll(AuditStep(u, es[0]), es[1..])
  }

  lemma AuditDataJoins(u: Audit, k: DataKind, x: seq<Byte>, y: seq<Byte>)
    ensures AuditData(AuditData(u, k, x), k, y) == AuditData(u, k, x + y)
  {
    assert u.name + x + y == u.name + (x + y);
    assert u.value + x + y == u.value + (x + y);
  }

  /** Auditing the joined trace is auditing the callbacks one by one. */
  lemma AuditEmit(t: seq<Event>, e: Event)
    ensures AuditOf(Emit(t, e)) == AuditStep(AuditOf(t), e)
  {
    var r := Emit(t, e);
    if e.Data? && t != [] && t[|t| - 1].Data? && t[|t| - 1].kind == e.kind {
      assert r[..|r| - 1] == t[..|t| - 1];
      AuditDataJoins(AuditOf(t[..|t| - 1]), e.kind, t[|t| - 1].bytes, e.bytes);
    } else {
      assert r[..|r| - 1] == t;
    }
  }

  lemma {:induction false} AuditEmitAll(t: seq<Event>, es: seq<Event>)
    ensures AuditOf(EmitAll(t, es)) == AuditAll(AuditOf(t), es)
    decreases |es|
  {
    if es != [] {
      AuditEmit(t, es[0]);
      AuditEmitAll(Emit(t, es[0]), es[1..]);
    }
  }

  /** The auditor's view of one machine step. */
  function Audited(u: Audit, o: Outcome, ch: Byte): Audit {
    AuditAll(if o.take.Some? then AuditData(u, o.take.value, [ch]) else u, o.notes)
  }

  lemma AuditTraced(t: seq<Event>, o: Outcome, ch: Byte)
    ensures AuditOf(Traced(t, o, ch)) == Audited(AuditOf(t), o, ch)
  {
    if o.take.Some? {
      AuditEmit(t, Data(o.take.value, [ch]));
      AuditEmitAll(Emit(t, Data(o.take.value, [ch])), o.notes);
    } else {
      AuditEmitAll(t, o.notes);
    }
  }

  /** The last event is data of kind k exactly when the audit says so. */
  lemma AuditLast(t: seq<Event>, k: DataKind)
    ensures AuditOf(t).last == Some(k) <==> t != [] && t[|t| - 1].Data? && t[|t| - 1].kind == k
  {
  }
}
