/** One client connection: startup, then one reply per message, over a stream whose writes may start to fail. */
module Session {
  import opened Prelude
  import opened ShardMap
  import opened Wire
  import opened WireRows
  import opened Sql

  // ----- what the backends answer -----

  datatype Failure = FromPostgres(code: Bytes, message: Bytes) | Other(message: Bytes)

  type Row = Result<seq<Option<Bytes>>, Failure>

  /** A result set: rows as they decode, then the statement's own outcome. */
  datatype Outcome = Outcome(fields: seq<Bytes>, rows: seq<Row>, failure: Option<Failure>, tag: Bytes)

  /** What routing, the pool and the backend would answer to one query. */
  datatype Answer = Answer(resolved: Result<Addr, Bytes>, pooled: Option<Bytes>, queried: Result<Outcome, Failure>)

  datatype Proxy = Proxy(answers: nat -> Answer, quoted: Byte -> Bytes, defaultMaxLagMS: int)

  /** Everything a connection does, in order. */
  datatype Event =
    | Refused
    | Said(m: Msg)
    | Flushed
    | Resolved(key: Bytes, level: string, maxLagMS: int)
    | Pooled(addr: Addr)
    | Queried(addr: Addr, query: Bytes)
    | Fetched
    | Ended(failure: Option<Failure>)
  {
    predicate IsWrite() {
      Refused? || Said? || Flushed?
    }

    function Encoded(): Bytes {
      if Refused? then ['N' as int] else if Said? then Written(m) else []
    }
  }

  function BytesOf(es: seq<Event>): Bytes {
    if es == [] then [] else BytesOf(Front(es)) + Last(es).Encoded()
  }

  // ----- the rows of one query -----

  /** The driver's rows: the outcome is only known once Next has returned false. */
  class Rows {
    const fields: seq<Bytes>
    const failure: Option<Failure>
    const tag: Bytes
    var current: Option<Row>
    var pending: seq<Row>
    var closed: bool

    constructor (o: Outcome)
      ensures fields == o.fields && failure == o.failure && tag == o.tag
      ensures pending == o.rows && !closed
    {
      fields, failure, tag := o.fields, o.failure, o.tag;
      current, pending, closed := None, o.rows, false;
    }

    method Next() returns (more: bool)
      modifies this
      ensures more == (old(pending) != [])
      ensures if more then current == Some(old(pending)[0]) && pending == old(pending)[1..] && closed == old(closed)
              else closed && pending == []
    {
      if pending == [] {
        closed := true;
        return false;
      }
      current, pending := Some(pending[0]), pending[1..];
      return true;
    }

    function Values(): Row
      requires current.Some?
      reads this
    {
      current.value
    }

    function Err(): Option<Failure>
      reads this
    {
      if closed then failure else None
    }

    function CommandTag(): Bytes
      reads this
    {
      if closed then tag else []
    }
  }

  // ----- the messages -----

  /** The bytes of ASCII text. */
  function Raw(s: string): Bytes {
    seq(|s|, i requires 0 <= i < |s| => s[i] as int % 256)
  }

  function QueryText(b: Bytes): string {
    seq(|b|, i requires 0 <= i < |b| => b[i] as char)
  }

  const READY := Said(Msg('Z' as int, ['I' as int]))

  function ErrorEvent(code: Bytes, message: Bytes): Event {
    Said(Msg('E' as int, ErrorPayload(Raw("ERROR"), code, message)))
  }

  function FailureEvent(f: Failure): Event {
    match f
    case FromPostgres(code, message) => ErrorEvent(code, message)
    case Other(message) => ErrorEvent(Raw("XX000"), message)
  }

  function Complete(tag: Bytes): Event {
    Said(Msg('C' as int, CString(tag)))
  }

  function Described(fields: seq<Bytes>): Event {
    Said(Msg('T' as int, Half(|fields|) + Columns(fields)))
  }

  function RowEvent(values: seq<Option<Bytes>>): Event {
    Said(Msg('D' as int, Half(|values|) + Cells(values)))
  }

  // ----- the specification of a session -----

  function Drained(o: Outcome, rows: seq<Row>): seq<Event> {
    if rows == [] then [Ended(o.failure), if o.failure.Some? then FailureEvent(o.failure.value) else Complete(o.tag)]
    else if o.fields == [] then [Fetched] + Drained(o, rows[1..])
    else match rows[0]
      case Err(f) => [Fetched, FailureEvent(f)]
      case Ok(values) => [Fetched, RowEvent(values)] + Drained(o, rows[1..])
  }

  function Streamed(o: Outcome): seq<Event> {
    (if o.fields == [] then [] else [Described(o.fields)]) + Drained(o, o.rows)
  }

  const TRANSACTIONS_UNSUPPORTED :=
    "transaction control (BEGIN/COMMIT/ROLLBACK/SAVEPOINT) is not supported by this proxy: " +
    "every query runs on a separate pooled backend connection, so the statements between BEGIN and COMMIT would not be atomic " +
    "(a ROLLBACK would silently leave them committed)"

  function Replied(p: Proxy, key: Bytes, query: Bytes, n: nat): seq<Event> {
    if IsTransactionControl(QueryText(query)) then [ErrorEvent(Raw("0A000"), Raw(TRANSACTIONS_UNSUPPORTED))]
    else
      var (level, maxLagMS) := ConsistencyFromQuery(QueryText(query), p.defaultMaxLagMS);
      [Resolved(key, level, maxLagMS)] + Forwarded(p.answers(n), query)
  }

  function Forwarded(a: Answer, query: Bytes): seq<Event> {
    match a.resolved
    case Err(e) => [ErrorEvent(Raw("XX000"), e)]
    case Ok(addr) =>
      if a.pooled.Some? then [Pooled(addr), ErrorEvent(Raw("08006"), NoBackend(addr, a.pooled.value))]
      else
        var result := match a.queried case Err(f) => [FailureEvent(f)] case Ok(o) => Streamed(o);
        [Pooled(addr), Queried(addr, query)] + result
  }

  function NoBackend(addr: Addr, e: Bytes): Bytes {
    Raw("connecting to backend ") + Raw(addr) + Raw(": ") + e
  }

  function TrimNuls(b: Bytes): Bytes {
    if b != [] && Last(b) == 0 then TrimNuls(Front(b)) else b
  }

  function Turn(p: Proxy, key: Bytes, m: Msg, n: nat): seq<Event> {
    if m.kind == 'Q' as int then Replied(p, key, TrimNuls(m.payload), n)
    else [ErrorEvent(Raw("0A000"), Raw("unsupported message type ") + p.quoted(m.kind))]
  }

  /** Each request gets its reply, a ReadyForQuery and a flush, in order. */
  function Served(p: Proxy, key: Bytes, requests: seq<Msg>, n: nat): seq<Event> {
    if requests == [] then []
    else Turn(p, key, requests[0], n) + [READY, Flushed] + Served(p, key, requests[1..], n + 1)
  }

  /** The messages before Terminate or the first read error. */
  function Requests(input: Bytes): seq<Msg>
    decreases |input|
  {
    match Message(input)
    case Got(Err(_), _) => []
    case Got(Ok(m), rest) =>
      MessageShrinks(input);
      if m.kind == 'X' as int then [] else [m] + Requests(rest)
  }

  function Lookup(params: map<Bytes, Bytes>, name: string): Bytes {
    if Raw(name) in params then params[Raw(name)] else []
  }

  function ShardKey(params: map<Bytes, Bytes>): Bytes {
    var v := Lookup(params, "application_name");
    if v != [] then v else Lookup(params, "user")
  }

  function HandshakeParameters(params: map<Bytes, Bytes>): seq<(Bytes, Bytes)> {
    [ (Raw("server_version"), Raw("14.0 (dbfabric)")),
      (Raw("server_encoding"), Raw("UTF8")),
      (Raw("client_encoding"), Raw("UTF8")),
      (Raw("DateStyle"), Raw("ISO, MDY")),
      (Raw("IntervalStyle"), Raw("postgres")),
      (Raw("TimeZone"), Raw("UTC")),
      (Raw("integer_datetimes"), Raw("on")),
      (Raw("standard_conforming_strings"), Raw("on")),
      (Raw("is_superuser"), Raw("off")),
      (Raw("session_authorization"), Lookup(params, "user")),
      (Raw("application_name"), Lookup(params, "application_name")) ]
  }

  function Statuses(pairs: seq<(Bytes, Bytes)>): seq<Event> {
    if pairs == [] then []
    else Statuses(Front(pairs)) + [Said(Msg('S' as int, CString(Last(pairs).0) + CString(Last(pairs).1)))]
  }

  const AUTHENTICATION_OK := Said(Msg('R' as int, [0, 0, 0, 0]))
  const BACKEND_KEY_DATA := Said(Msg('K' as int, Word(0) + Word(0)))

  function Handshake(params: map<Bytes, Bytes>): seq<Event> {
    [AUTHENTICATION_OK] + Statuses(HandshakeParameters(params)) + [BACKEND_KEY_DATA, READY, Flushed]
  }

  function Refusals(k: nat): seq<Event> {
    if k == 0 then [] else Refusals(k - 1) + [Refused, Flushed]
  }

  function StartedWith(section: Result<Bytes, ReadError>): Option<map<Bytes, Bytes>> {
    match section
    case Err(_) => None
    case Ok(body) => if body == [] || Last(body) != 0 then None else Some(Params(Strings(Front(body)).0))
  }

  /** What a connection does when every write succeeds. */
  function Transcript(p: Proxy, input: Bytes): seq<Event> {
    var g := Greet(input);
    Refusals(g.refused) + match StartedWith(g.section)
      case None => []
      case Some(params) => Handshake(params) + Served(p, ShardKey(params), Requests(g.rest), 0)
  }

  // ----- writes that fail -----

  function Writes(es: seq<Event>): nat {
    if es == [] then 0 else Writes(Front(es)) + if Last(es).IsWrite() then 1 else 0
  }

  /** What happens of `es` when only `room` writes succeed: everything before the first write that fails. */
  function CutShort(es: seq<Event>, room: nat): seq<Event> {
    if es == [] || Writes(es) <= room then es else CutShort(Front(es), room)
  }

  lemma {:induction false} WritesAppend(a: seq<Event>, b: seq<Event>)
    ensures Writes(a + b) == Writes(a) + Writes(b)
  {
    if b == [] {
      assert a + b == a;
    } else {
      assert Front(a + b) == a + Front(b) && Last(a + b) == Last(b);
      WritesAppend(a, Front(b));
    }
  }

  lemma {:induction false} CutAppend(a: seq<Event>, b: seq<Event>, room: nat)
    ensures Writes(a) <= room ==> CutShort(a + b, room) == a + CutShort(b, room - Writes(a))
    ensures Writes(a) > room ==> CutShort(a + b, room) == CutShort(a, room)
  {
    WritesAppend(a, b);
    if b == [] {
      assert a + b == a;
    } else {
      assert Front(a + b) == a + Front(b);
      WritesAppend(a, Front(b));
      CutAppend(a, Front(b), room);
    }
  }

  /** From trace `t0` with `r0` writes left, doing `es` as far as the writes go leads to `t1` and `r1`. */
  predicate Performs(t0: seq<Event>, r0: nat, es: seq<Event>, ok: bool, t1: seq<Event>, r1: nat) {
    && ok == (Writes(es) <= r0)
    && t1 == t0 + CutShort(es, r0)
    && (ok ==> r1 == r0 - Writes(es))
  }

  lemma Then(t0: seq<Event>, r0: nat, a: seq<Event>, t1: seq<Event>, r1: nat,
             b: seq<Event>, ok: bool, t2: seq<Event>, r2: nat)
    requires Performs(t0, r0, a, true, t1, r1)
    requires Performs(t1, r1, b, ok, t2, r2)
    ensures Performs(t0, r0, a + b, ok, t2, r2)
  {
    WritesAppend(a, b);
    CutAppend(a, b, r0);
    CutAppend(a, [], r0);
    assert a + [] == a;
    assert t0 + a + CutShort(b, r1) == t0 + (a + CutShort(b, r1));
  }

  lemma Stops(t0: seq<Event>, r0: nat, a: seq<Event>, t1: seq<Event>, r1: nat, b: seq<Event>)
    requires Performs(t0, r0, a, false, t1, r1)
    ensures Performs(t0, r0, a + b, false, t1, r1)
  {
    WritesAppend(a, b);
    CutAppend(a, b, r0);
  }

  lemma NothingYet(t: seq<Event>, r: nat)
    ensures Performs(t, r, [], true, t, r)
  {
    assert t + [] == t;
  }

  lemma {:induction false} RefusalsSplit(k: nat, n: nat)
    requires k <= n
    ensures Refusals(n) == Refusals(k) + Refusals(n - k)
  {
    if k == n {
      assert Refusals(k) + [] == Refusals(k);
    } else {
      RefusalsSplit(k, n - 1);
      assert Refusals(k) + Refusals(n - 1 - k) + [Refused, Flushed] == Refusals(k) + (Refusals(n - 1 - k) + [Refused, Flushed]);
    }
  }

  lemma {:induction false} StatusesSplit(pairs: seq<(Bytes, Bytes)>, i: nat)
    requires i <= |pairs|
    ensures Statuses(pairs) == Statuses(pairs[..i]) + Statuses(pairs[i..])
  {
    if i == |pairs| {
      assert pairs[..i] == pairs;
    } else {
      StatusesSplit(Front(pairs), i);
      assert Front(pairs)[..i] == pairs[..i] && Front(pairs)[i..] == Front(pairs[i..]);
    }
  }

  lemma PerformsCuts(r0: nat, es: seq<Event>, ok: bool, t: seq<Event>, r: nat)
    requires Performs([], r0, es, ok, t, r)
    ensures t == CutShort(es, r0)
  {
  }

  lemma StartupRefused(section: Result<Bytes, ReadError>)
    requires section.Err?
    ensures StartedWith(section) == None
  {
  }

  lemma StartupParsed(body: Bytes, r: Result<map<Bytes, Bytes>, ReadError>)
    requires r.Err? <==> body == [] || Last(body) != 0
    requires r.Ok? ==> exists strs :: SplitsInto(body, strs) && r.value == Params(strs)
    ensures StartedWith(Ok(body)) == if r.Ok? then Some(r.value) else None
  {
    if r.Ok? {
      var strs :| SplitsInto(body, strs) && r.value == Params(strs);
      SplitsIntoItsStrings(body, strs);
    }
  }

  /** One round of the startup loop. */
  lemma GreetRound(s: Bytes, r: Result<Bytes, ReadError>, rest: Bytes)
    requires Untyped(s) == Got(r, rest)
    ensures r.Err? ==> Greet(s) == Greeting(0, Err(r.error), rest)
    ensures r.Ok? && |r.value| < 4 ==> Greet(s) == Greeting(0, Err(TooShort(|r.value|)), rest)
    ensures r.Ok? && |r.value| >= 4 ==>
      var code := WordOf(r.value[..4]);
      if code == SSL_REQUEST || code == GSS_REQUEST then
        |rest| < |s| && Greet(s) == Greet(rest).(refused := Greet(rest).refused + 1)
      else Greet(s) == Greeting(0, if code == PROTOCOL_3 then Ok(r.value[4..]) else Err(BadCode(code)), rest)
  {
    hide Untyped, WordOf;
    if r.Ok? {
      UntypedShrinks(s);
    }
  }

  lemma Reassociate<T>(a: seq<T>, b: seq<T>, c: seq<T>, d: seq<T>)
    ensures a + (b + c + d) == a + b + (c + d) == a + b + c + d
  {
  }

  /** One round of the query loop. */
  lemma ServeRound(p: Proxy, key: Bytes, s: Bytes, n: nat, r: Result<Msg, ReadError>, rest: Bytes)
    requires Message(s) == Got(r, rest)
    ensures r.Err? || r.value.kind == 'X' as int ==> Served(p, key, Requests(s), n) == []
    ensures r.Ok? && r.value.kind != 'X' as int ==> |rest| < |s|
    ensures r.Ok? && r.value.kind != 'X' as int ==>
      Served(p, key, Requests(s), n)
        == Turn(p, key, r.value, n) + [READY, Flushed] + Served(p, key, Requests(rest), n + 1)
  {
    hide Message, Turn;
    if r.Ok? {
      MessageShrinks(s);
      assert r.value.kind != 'X' as int ==> ([r.value] + Requests(rest))[1..] == Requests(rest);
    }
  }

  // ----- the connection -----

  class Conn {
    var input: Bytes
    var output: Bytes
    /** How many more writes and flushes succeed. */
    var room: nat
    ghost var trace: seq<Event>

    ghost predicate Valid()
      reads this`output, this`trace
    {
      output == BytesOf(trace)
    }

    constructor (input: Bytes, room: nat)
      ensures Valid() && this.input == input && this.room == room && trace == []
    {
      this.input, output, this.room, trace := input, [], room, [];
    }

    method ReadFull(n: nat) returns (r: Result<Bytes, ReadError>)
      modifies this`input
      ensures Full(old(input), n) == Got(r, input)
    {
      if n <= |input| {
        r := Ok(input[..n]);
        input := input[n..];
      } else {
        r := Err(if input == [] then Eof else UnexpectedEof);
        input := [];
      }
    }

    method ReadUntyped() returns (r: Result<Bytes, ReadError>)
      modifies this`input
      ensures Untyped(old(input)) == Got(r, input)
    {
      var head := ReadFull(4);
      if head.Err? {
        return head;
      }
      var length := WordOf(head.value);
      if length < 4 {
        return Err(BadLength(length));
      }
      r := ReadFull(length - 4);
    }

    method ReadMessage() returns (r: Result<Msg, ReadError>)
      modifies this`input
      ensures Message(old(input)) == Got(r, input)
    {
      var kind := ReadFull(1);
      if kind.Err? {
        return Err(kind.error);
      }
      var payload := ReadUntyped();
      if payload.Err? {
        return Err(payload.error);
      }
      return Ok(Msg(kind.value[0], payload.value));
    }

    ghost method Note(e: Event)
      requires Valid() && !e.IsWrite()
      modifies this`trace
      ensures Valid() && Performs(old(trace), room, [e], true, trace, room)
    {
      trace := trace + [e];
      assert Front(trace) == old(trace);
    }

    method Write(bytes: Bytes, ghost e: Event) returns (ok: bool)
      requires Valid() && e.IsWrite() && e.Encoded() == bytes
      modifies this`output, this`room, this`trace
      ensures Valid() && Performs(old(trace), old(room), [e], ok, trace, room)
    {
      assert Writes([e]) == 1;
      if room == 0 {
        return false;
      }
      room := room - 1;
      output := output + bytes;
      trace := trace + [e];
      assert Front(trace) == old(trace);
      return true;
    }

    /** A write and, if it succeeds, another. */
    method WritePair(first: Bytes, ghost a: Event, second: Bytes, ghost b: Event) returns (ok: bool)
      requires Valid() && a.IsWrite() && a.Encoded() == first && b.IsWrite() && b.Encoded() == second
      modifies this`output, this`room, this`trace
      ensures Valid() && Performs(old(trace), old(room), [a, b], ok, trace, room)
    {
      hide Performs, Valid, BytesOf;
      ghost var t0, r0 := trace, room;
      ok := Write(first, a);
      assert [a] + [b] == [a, b];
      if !ok {
        Stops(t0, r0, [a], trace, room, [b]);
        return;
      }
      ghost var t1, r1 := trace, room;
      ok := Write(second, b);
      Then(t0, r0, [a], t1, r1, [b], ok, trace, room);
    }

    method WriteMessage(kind: Byte, payload: Bytes) returns (ok: bool)
      requires Valid()
      modifies this`output, this`room, this`trace
      ensures Valid() && Performs(old(trace), old(room), [Said(Msg(kind, payload))], ok, trace, room)
    {
      ok := Write(Written(Msg(kind, payload)), Said(Msg(kind, payload)));
    }

    method WriteError(code: Bytes, message: Bytes) returns (ok: bool)
      requires Valid()
      modifies this`output, this`room, this`trace
      ensures Valid() && Performs(old(trace), old(room), [ErrorEvent(code, message)], ok, trace, room)
    {
      ok := WriteMessage('E' as int, ErrorPayload(Raw("ERROR"), code, message));
    }

    method WriteFailure(f: Failure) returns (ok: bool)
      requires Valid()
      modifies this`output, this`room, this`trace
      ensures Valid() && Performs(old(trace), old(room), [FailureEvent(f)], ok, trace, room)
    {
      match f {
        case FromPostgres(code, message) => ok := WriteError(code, message);
        case Other(message) => ok := WriteError(Raw("XX000"), message);
      }
    }

    /** Refuses encryption requests until a startup message; None when the startup fails. */
    method StartupParams() returns (ok: bool, params: Option<map<Bytes, Bytes>>)
      requires Valid()
      modifies this
      ensures Valid() && Performs(old(trace), old(room), Refusals(Greet(old(input)).refused), ok, trace, room)
      ensures ok ==> input == Greet(old(input)).rest && params == StartedWith(Greet(old(input)).section)
    {
      hide Performs, Valid, BytesOf, Greet, Untyped, WordOf, StartedWith;
      ghost var k, g, t0, r0 := 0, Greet(input), trace, room;
      NothingYet(trace, room);
      while true
        invariant Valid() && Performs(t0, r0, Refusals(k), true, trace, room)
        invariant k + Greet(input).refused == g.refused
        invariant Greet(input).section == g.section && Greet(input).rest == g.rest
        decreases |input|
      {
        ghost var t1, r1, before := trace, room, input;
        var body := ReadUntyped();
        GreetRound(before, body, input);
        if body.Err? {
          StartupRefused(g.section);
          return true, None;
        }
        if |body.value| < 4 {
          StartupRefused(g.section);
          return true, None;
        }
        var code := WordOf(body.value[..4]);
        if code == SSL_REQUEST || code == GSS_REQUEST {
          ok := WritePair(['N' as int], Refused, [], Flushed);
          Then(t0, r0, Refusals(k), t1, r1, [Refused, Flushed], ok, trace, room);
          k := k + 1;
          if !ok {
            RefusalsSplit(k, g.refused);
            Stops(t0, r0, Refusals(k), trace, room, Refusals(g.refused - k));
            return false, None;
          }
        } else if code == PROTOCOL_3 {
          var parsed := ParseStartupParams(body.value[4..]);
          StartupParsed(body.value[4..], parsed);
          return true, if parsed.Ok? then Some(parsed.value) else None;
        } else {
          StartupRefused(g.section);
          return true, None;
        }
      }
    }

    method StreamResult(o: Outcome, rows: Rows) returns (ok: bool)
      requires Valid() && rows.fields == o.fields && rows.failure == o.failure && rows.tag == o.tag
      requires rows.pending == o.rows && !rows.closed
      modifies rows, this`output, this`room, this`trace
      ensures Valid() && Performs(old(trace), old(room), Streamed(o), ok, trace, room)
      ensures ok && (o.fields == [] || forall row :: row in o.rows ==> row.Ok?) ==> rows.closed
    {
      hide Performs, Valid, BytesOf, CString, Half, Cells, Columns, FailureEvent;
      ghost var es, t0, r0 := [], trace, room;
      NothingYet(trace, room);
      var hasColumns := |rows.fields| > 0;
      if hasColumns {
        var payload := RowDescription(rows.fields);
        ok := WriteMessage('T' as int, payload);
        es := [Described(o.fields)];
        if !ok {
          Stops(t0, r0, es, trace, room, Drained(o, o.rows));
          return;
        }
      }
      assert es + Drained(o, rows.pending) == Streamed(o);
      while true
        invariant Valid() && !rows.closed && Performs(t0, r0, es, true, trace, room)
        invariant es + Drained(o, rows.pending) == Streamed(o)
        invariant forall row :: row in rows.pending ==> row in o.rows
        decreases |rows.pending|
      {
        ghost var t1, r1, left := trace, room, rows.pending;
        var more := rows.Next();
        if !more {
          Note(Ended(rows.failure));
          Then(t0, r0, es, t1, r1, [Ended(rows.failure)], true, trace, room);
          es := es + [Ended(rows.failure)];
          break;
        }
        Note(Fetched);
        Then(t0, r0, es, t1, r1, [Fetched], true, trace, room);
        es := es + [Fetched];
        if !hasColumns {
          assert es + Drained(o, rows.pending) == Streamed(o);
          continue;
        }
        t1, r1 := trace, room;
        match rows.Values() {
          case Err(f) =>
            ok := WriteFailure(f);
            Then(t0, r0, es, t1, r1, [FailureEvent(f)], ok, trace, room);
            assert left[0] in o.rows;
            assert es + [FailureEvent(f)] == Streamed(o);
            return;
          case Ok(values) =>
            var payload := DataRow(values);
            ok := WriteMessage('D' as int, payload);
            Then(t0, r0, es, t1, r1, [RowEvent(values)], ok, trace, room);
            es := es + [RowEvent(values)];
            assert es + Drained(o, rows.pending) == Streamed(o);
            if !ok {
              Stops(t0, r0, es, trace, room, Drained(o, rows.pending));
              return;
            }
        }
      }
      ghost var t1, r1 := trace, room;
      if rows.Err().Some? {
        ok := WriteFailure(rows.Err().value);
        Then(t0, r0, es, t1, r1, [FailureEvent(rows.failure.value)], ok, trace, room);
        assert es + [FailureEvent(rows.failure.value)] == Streamed(o);
      } else {
        ok := WriteMessage('C' as int, CString(rows.CommandTag()));
        Then(t0, r0, es, t1, r1, [Complete(rows.tag)], ok, trace, room);
        assert es + [Complete(rows.tag)] == Streamed(o);
      }
    }

    /** One query: refused, failed on the way, or streamed. */
    method HandleQuery(p: Proxy, key: Bytes, query: Bytes, n: nat) returns (ok: bool)
      requires Valid()
      modifies this`output, this`room, this`trace
      ensures Valid() && Performs(old(trace), old(room), Replied(p, key, query, n), ok, trace, room)
    {
      hide Performs, Valid, BytesOf, Streamed, ConsistencyFromQuery;
      ghost var t0, r0, all := trace, room, Replied(p, key, query, n);
      if IsTransactionControl(QueryText(query)) {
        ok := WriteError(Raw("0A000"), Raw(TRANSACTIONS_UNSUPPORTED));
        return;
      }
      var (level, maxLagMS) := ConsistencyFromQuery(QueryText(query), p.defaultMaxLagMS);
      var a := p.answers(n);
      Note(Resolved(key, level, maxLagMS));
      ghost var es, t1, r1 := [Resolved(key, level, maxLagMS)], trace, room;
      if a.resolved.Err? {
        ok := WriteError(Raw("XX000"), a.resolved.error);
        Then(t0, r0, es, t1, r1, [ErrorEvent(Raw("XX000"), a.resolved.error)], ok, trace, room);
        return;
      }
      var addr := a.resolved.value;
      Note(Pooled(addr));
      Then(t0, r0, es, t1, r1, [Pooled(addr)], true, trace, room);
      es, t1, r1 := es + [Pooled(addr)], trace, room;
      if a.pooled.Some? {
        var text := NoBackend(addr, a.pooled.value);
        ok := WriteError(Raw("08006"), text);
        Then(t0, r0, es, t1, r1, [ErrorEvent(Raw("08006"), text)], ok, trace, room);
        assert es + [ErrorEvent(Raw("08006"), text)] == all;
        return;
      }
      Note(Queried(addr, query));
      Then(t0, r0, es, t1, r1, [Queried(addr, query)], true, trace, room);
      es, t1, r1 := es + [Queried(addr, query)], trace, room;
      match a.queried {
        case Err(f) =>
          ok := WriteFailure(f);
          Then(t0, r0, es, t1, r1, [FailureEvent(f)], ok, trace, room);
          assert es + [FailureEvent(f)] == all;
        case Ok(o) =>
          var rows := new Rows(o);
          ok := StreamResult(o, rows);
          Then(t0, r0, es, t1, r1, Streamed(o), ok, trace, room);
          assert es + Streamed(o) == all;
      }
    }

    method WriteStatuses(pairs: seq<(Bytes, Bytes)>) returns (ok: bool)
      requires Valid()
      modifies this`output, this`room, this`trace
      ensures Valid() && Performs(old(trace), old(room), Statuses(pairs), ok, trace, room)
    {
      hide Performs, Valid, BytesOf, CString;
      ghost var t0, r0 := trace, room;
      NothingYet(trace, room);
      for i := 0 to |pairs|
        invariant Valid() && Performs(t0, r0, Statuses(pairs[..i]), true, trace, room)
      {
        ghost var t1, r1 := trace, room;
        var payload := CString(pairs[i].0) + CString(pairs[i].1);
        ok := WriteMessage('S' as int, payload);
        Then(t0, r0, Statuses(pairs[..i]), t1, r1, [Said(Msg('S' as int, payload))], ok, trace, room);
        assert Front(pairs[..i + 1]) == pairs[..i];
        if !ok {
          StatusesSplit(pairs, i + 1);
          Stops(t0, r0, Statuses(pairs[..i + 1]), trace, room, Statuses(pairs[i + 1..]));
          return;
        }
      }
      assert pairs[..|pairs|] == pairs;
      return true;
    }

    method WriteHandshake(params: map<Bytes, Bytes>) returns (ok: bool)
      requires Valid()
      modifies this`output, this`room, this`trace
      ensures Valid() && Performs(old(trace), old(room), Handshake(params), ok, trace, room)
    {
      hide Performs, Valid, BytesOf, HandshakeParameters, Statuses, Word, Written;
      ghost var t0, r0, all := trace, room, Handshake(params);
      var pairs := HandshakeParameters(params);
      ghost var middle, tail := Statuses(pairs), [BACKEND_KEY_DATA] + [READY, Flushed];
      assert all == [AUTHENTICATION_OK] + (middle + tail) == [AUTHENTICATION_OK] + middle + tail;
      ok := WriteMessage('R' as int, [0, 0, 0, 0]);
      if !ok {
        Stops(t0, r0, [AUTHENTICATION_OK], trace, room, middle + tail);
        return;
      }
      ghost var es, t1, r1 := [AUTHENTICATION_OK] + middle, trace, room;
      ok := WriteStatuses(pairs);
      Then(t0, r0, [AUTHENTICATION_OK], t1, r1, middle, ok, trace, room);
      if !ok {
        Stops(t0, r0, es, trace, room, tail);
        return;
      }
      t1, r1 := trace, room;
      ok := WriteKeyData();
      Then(t0, r0, es, t1, r1, tail, ok, trace, room);
    }

    /** BackendKeyData, ReadyForQuery and the flush that ends the handshake. */
    method WriteKeyData() returns (ok: bool)
      requires Valid()
      modifies this`output, this`room, this`trace
      ensures Valid() && Performs(old(trace), old(room), [BACKEND_KEY_DATA] + [READY, Flushed], ok, trace, room)
    {
      hide Performs, Valid, BytesOf, Word, Written;
      ghost var t0, r0 := trace, room;
      ok := WriteMessage('K' as int, Word(0) + Word(0));
      if !ok {
        Stops(t0, r0, [BACKEND_KEY_DATA], trace, room, [READY, Flushed]);
        return;
      }
      ghost var t1, r1 := trace, room;
      ok := WriteReady();
      Then(t0, r0, [BACKEND_KEY_DATA], t1, r1, [READY, Flushed], ok, trace, room);
    }

    method WriteReady() returns (ok: bool)
      requires Valid()
      modifies this`output, this`room, this`trace
      ensures Valid() && Performs(old(trace), old(room), [READY, Flushed], ok, trace, room)
    {
      ok := WritePair(Written(Msg('Z' as int, ['I' as int])), READY, [], Flushed);
    }

    /** The query loop: until Terminate, a read error, or a write that fails. */
    method Serve(p: Proxy, key: Bytes) returns (ok: bool)
      requires Valid()
      modifies this
      ensures Valid()
      ensures Performs(old(trace), old(room), Served(p, key, Requests(old(input)), 0), ok, trace, room)
    {
      hide Performs, Valid, BytesOf, Replied, Written, Served, Requests, Message, ErrorEvent;
      ghost var t0, r0, all := trace, room, Served(p, key, Requests(input), 0);
      ghost var es: seq<Event> := [];
      var n := 0;
      NothingYet(trace, room);
      while true
        invariant Valid() && Performs(t0, r0, es, true, trace, room)
        invariant es + Served(p, key, Requests(input), n) == all
        decreases |input|
      {
        ghost var t1, r1, before := trace, room, input;
        var m := ReadMessage();
        ServeRound(p, key, before, n, m, input);
        if m.Err? {
          assert es + [] == es;
          return true;
        }
        if m.value.kind == 'Q' as int {
          var query := TrimNuls(m.value.payload);
          ok := HandleQuery(p, key, query, n);
        } else if m.value.kind == 'X' as int {
          assert es + [] == es;
          return true;
        } else {
          ok := WriteError(Raw("0A000"), Raw("unsupported message type ") + p.quoted(m.value.kind));
        }
        ghost var turn, rest := Turn(p, key, m.value, n), Served(p, key, Requests(input), n + 1);
        Then(t0, r0, es, t1, r1, turn, ok, trace, room);
        Reassociate(es, turn, [READY, Flushed], rest);
        es := es + turn;
        if !ok {
          Stops(t0, r0, es, trace, room, [READY, Flushed] + rest);
          return;
        }
        t1, r1 := trace, room;
        ok := WriteReady();
        Then(t0, r0, es, t1, r1, [READY, Flushed], ok, trace, room);
        es := es + [READY, Flushed];
        if !ok {
          Stops(t0, r0, es, trace, room, rest);
          return;
        }
        n := n + 1;
      }
    }

    /** The whole connection. */
    method HandleConn(p: Proxy)
      requires Valid() && trace == []
      modifies this
      ensures Valid() && trace == CutShort(Transcript(p, old(input)), old(room))
    {
      hide Performs, Valid, BytesOf, Handshake, StartedWith, Greet, Requests, Served, Refusals;
      ghost var r0, all := room, Transcript(p, input);
      ghost var g := Greet(input);
      var ok, params := StartupParams();
      ghost var es, t1, r1 := Refusals(g.refused), trace, room;
      ghost var later := all[|es|..];
      assert es + later == all;
      if !ok {
        Stops([], r0, es, trace, room, later);
        PerformsCuts(r0, all, ok, trace, room);
        return;
      }
      if params.None? {
        assert es == all;
        PerformsCuts(r0, all, ok, trace, room);
        return;
      }
      var key := ShardKey(params.value);
      ghost var hello, rest := Handshake(params.value), Served(p, key, Requests(input), 0);
      assert es + (hello + rest) == all;
      ok := WriteHandshake(params.value);
      Then([], r0, es, t1, r1, hello, ok, trace, room);
      assert es + hello + rest == all;
      if !ok {
        Stops([], r0, es + hello, trace, room, rest);
        PerformsCuts(r0, all, ok, trace, room);
        return;
      }
      t1, r1 := trace, room;
      ok := Serve(p, key);
      Then([], r0, es + hello, t1, r1, rest, ok, trace, room);
      PerformsCuts(r0, all, ok, trace, room);
    }
  }
}
