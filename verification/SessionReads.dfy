/** What the client's own readers make of a session's messages, and what is asked on the client's behalf. */
module SessionReads {
  import opened Prelude
  import opened Wire
  import opened WireRows
  import opened Session
  import opened SessionLaws
  import opened HintLaws
  import opened Transactions
  import Sql

  // ----- text as bytes -----

  lemma RawIs(s: string, i: nat)
    requires forall k :: 0 <= k < |s| ==> s[k] as int < 256
    ensures |Raw(s)| == |s| && (i < |s| ==> Raw(s)[i] == s[i] as int)
    ensures QueryText(Raw(s)) == s
  {
  }

  // ----- rows -----

  /** The client reads exactly the row it was sent, when the row can be carried at all. */
  lemma RowIsRead(values: seq<Option<Bytes>>)
    ensures RowEvent(values).m.kind == 'D' as int
    ensures RowOf(RowEvent(values).m.payload) == Some(values) <==> |values| < 0x1_0000 && AllShort(values)
  {
    hide RowOf, Half, Cells, AllShort;
    RowReadsBackExactlyWhen(values);
  }

  /** The client reads one text column per name: type 25, variable length, no modifier, text format. */
  lemma DescriptionIsRead(fields: seq<Bytes>)
    requires |fields| < 0x1_0000 && AllNulFree(fields)
    ensures Described(fields).m.kind == 'T' as int
    ensures DescriptionOf(Described(fields).m.payload) == Some(TextFields(fields))
    ensures var read := DescriptionOf(Described(fields).m.payload);
      read.Some? && |read.value| == |fields|
      && forall i :: 0 <= i < |fields| ==> read.value[i] == Field(fields[i], 0, 0, 25, -1, -1, 0)
  {
    hide DescriptionOf, Half, Columns, TextFields, AllNulFree;
    DescriptionReadsBackExactlyWhen(fields);
    TextFieldAt(fields, 0);
    forall i | 0 <= i < |fields| ensures TextFields(fields)[i] == Field(fields[i], 0, 0, 25, -1, -1, 0) {
      TextFieldAt(fields, i);
    }
  }

  // ----- errors -----

  /** An error response from which the client reads severity ERROR, this code and this message. */
  predicate SaysError(m: Msg, code: Bytes, message: Bytes) {
    && m.kind == 'E' as int
    && (NulFree(code) && NulFree(message) ==>
          ErrorFieldsOf(m.payload) == Some([('S' as int, [69, 82, 82, 79, 82]), ('C' as int, code), ('M' as int, message)]))
  }

  lemma ErrorIsRead(code: Bytes, message: Bytes)
    ensures ErrorEvent(code, message).Said? && SaysError(ErrorEvent(code, message).m, code, message)
  {
    SeverityIs();
    hide ErrorFieldsOf, ErrorPayload, Raw, NulFree;
    ErrorReadsBackExactlyWhen(Raw("ERROR"), code, message);
  }

  lemma SeverityIs()
    ensures Raw("ERROR") == [69, 82, 82, 79, 82] && NulFree(Raw("ERROR"))
  {
  }

  /** SQLSTATE codes, spelled out: XX000, 0A000, 08006. */
  const INTERNAL: Bytes := [88, 88, 48, 48, 48]
  const UNSUPPORTED: Bytes := [48, 65, 48, 48, 48]
  const CONNECTION: Bytes := [48, 56, 48, 48, 54]

  lemma CodesAre()
    ensures Raw("XX000") == INTERNAL && Raw("0A000") == UNSUPPORTED && Raw("08006") == CONNECTION
  {
  }

  /** A backend's own code and message reach the client, each in its place. */
  predicate SaysFailure(m: Msg, f: Failure) {
    match f
    case FromPostgres(code, message) => SaysError(m, code, message)
    case Other(message) => SaysError(m, INTERNAL, message)
  }

  lemma FailureIsRead(f: Failure)
    ensures FailureEvent(f).Said? && SaysFailure(FailureEvent(f).m, f)
  {
    hide ErrorEvent, SaysError, Raw, INTERNAL;
    CodesAre();
    match f {
      case FromPostgres(code, message) => ErrorIsRead(code, message);
      case Other(message) => ErrorIsRead(Raw("XX000"), message);
    }
  }

  // ----- a whole result -----

  /** The end of a result: its tag when the statement succeeded, else what made it fail. */
  predicate SaysEnd(m: Msg, o: Outcome) {
    if o.failure.Some? then SaysFailure(m, o.failure.value) else m == Msg('C' as int, o.tag + [0])
  }

  lemma {:induction false} RowsThenEnd(o: Outcome, rows: seq<Row>)
    requires forall row :: row in rows ==> row.Ok?
    ensures var said := SaidIn(Drained(o, rows));
      && said != [] && SaysEnd(Last(said), o)
      && (o.fields == [] ==> |said| == 1)
      && (o.fields != [] ==> |said| == |rows| + 1)
      && (o.fields != [] ==> forall i :: 0 <= i < |rows| ==> said[i] == RowEvent(rows[i].value).m)
  {
    hide ErrorEvent, FailureEvent, RowEvent, SaysFailure;
    if rows == [] {
      var final := if o.failure.Some? then FailureEvent(o.failure.value) else Complete(o.tag);
      assert Drained(o, rows) == [Ended(o.failure)] + [final];
      if o.failure.Some? {
        FailureIsRead(o.failure.value);
      }
      SaidOfCons(Ended(o.failure), [final]);
      SaidOfCons(final, []);
      assert [final] + [] == [final];
    } else {
      var rest := Drained(o, rows[1..]);
      RowsThenEnd(o, rows[1..]);
      if o.fields == [] {
        SaidOfCons(Fetched, rest);
      } else {
        var e := RowEvent(rows[0].value);
        RowIsRead(rows[0].value);
        RowSaid(rows[0].value);
        assert Drained(o, rows) == [Fetched] + ([e] + rest);
        SaidOfCons(Fetched, [e] + rest);
        SaidOfCons(e, rest);
      }
    }
  }

  lemma RowSaid(values: seq<Option<Bytes>>)
    ensures RowEvent(values).Said?
  {
  }

  lemma SaidOfCons(e: Event, es: seq<Event>)
    ensures SaidIn([e] + es) == (if e.Said? then [e.m] else []) + SaidIn(es)
    ensures SaidIn([]) == []
  {
    SaidAppend([e], es);
    assert Front([e]) == [];
    assert SaidIn([e]) == if e.Said? then [e.m] else [];
  }

  /**
   * A result whose rows all decode: the client reads the columns' names, every row in order as it came from the
   * backend, and then the statement's own tag or error.
   */
  lemma ClientReadsTheResult(o: Outcome)
    requires o.fields != [] && forall row :: row in o.rows ==> row.Ok?
    ensures var said := SaidIn(Streamed(o));
      && |said| == |o.rows| + 2
      && said[0] == Described(o.fields).m
      && (|o.fields| < 0x1_0000 && AllNulFree(o.fields) ==>
            said[0].kind == 'T' as int && DescriptionOf(said[0].payload) == Some(TextFields(o.fields)))
      && (forall i :: 0 <= i < |o.rows| && |o.rows[i].value| < 0x1_0000 && AllShort(o.rows[i].value) ==>
            said[i + 1].kind == 'D' as int && RowOf(said[i + 1].payload) == Some(o.rows[i].value))
      && SaysEnd(Last(said), o)
  {
    hide Drained, RowEvent, RowOf, AllShort, SaysEnd, Half, Columns, DescriptionOf, TextFields, AllNulFree;
    var rest := Drained(o, o.rows);
    RowsThenEnd(o, o.rows);
    if |o.fields| < 0x1_0000 && AllNulFree(o.fields) {
      DescriptionIsRead(o.fields);
    }
    SaidOfCons(Described(o.fields), rest);
    var said := SaidIn(Streamed(o));
    assert said == [Described(o.fields).m] + SaidIn(rest);
    forall i | 0 <= i < |o.rows| && |o.rows[i].value| < 0x1_0000 && AllShort(o.rows[i].value)
      ensures said[i + 1].kind == 'D' as int && RowOf(said[i + 1].payload) == Some(o.rows[i].value)
    {
      RowIsRead(o.rows[i].value);
      RowSaid(o.rows[i].value);
      assert said[i + 1] == SaidIn(rest)[i];
    }
  }

  lemma {:induction false} RowsThenBad(o: Outcome, rows: seq<Row>, k: nat)
    requires o.fields != [] && k < |rows| && rows[k].Err? && forall i :: 0 <= i < k ==> rows[i].Ok?
    ensures var said := SaidIn(Drained(o, rows));
      && |said| == k + 1 && SaysFailure(said[k], rows[k].error)
      && forall i :: 0 <= i < k ==> said[i] == RowEvent(rows[i].value).m
  {
    hide ErrorEvent, FailureEvent, RowEvent, SaysFailure;
    if k == 0 {
      FailureIsRead(rows[0].error);
      var e := FailureEvent(rows[0].error);
      assert Drained(o, rows) == [Fetched] + [e];
      SaidOfCons(Fetched, [e]);
      SaidOfCons(e, []);
      assert [e] + [] == [e];
    } else {
      var e, rest := RowEvent(rows[0].value), Drained(o, rows[1..]);
      RowsThenBad(o, rows[1..], k - 1);
      RowSaid(rows[0].value);
      assert Drained(o, rows) == [Fetched] + ([e] + rest);
      SaidOfCons(Fetched, [e] + rest);
      SaidOfCons(e, rest);
    }
  }

  /** When row `k` is the first that does not decode, the client reads the rows before it and then what was wrong. */
  lemma ClientReadsUpToABadRow(o: Outcome, k: nat)
    requires o.fields != [] && k < |o.rows| && o.rows[k].Err? && forall i :: 0 <= i < k ==> o.rows[i].Ok?
    ensures var said := SaidIn(Streamed(o));
      && |said| == k + 2 && SaysFailure(said[k + 1], o.rows[k].error)
      && forall i :: 0 <= i < k && |o.rows[i].value| < 0x1_0000 && AllShort(o.rows[i].value) ==>
           said[i + 1].kind == 'D' as int && RowOf(said[i + 1].payload) == Some(o.rows[i].value)
  {
    hide Drained, RowEvent, RowOf, AllShort, SaysFailure, Half, Columns;
    var rest := Drained(o, o.rows);
    RowsThenBad(o, o.rows, k);
    SaidOfCons(Described(o.fields), rest);
    var said := SaidIn(Streamed(o));
    assert said == [Described(o.fields).m] + SaidIn(rest);
    forall i | 0 <= i < k && |o.rows[i].value| < 0x1_0000 && AllShort(o.rows[i].value)
      ensures said[i + 1].kind == 'D' as int && RowOf(said[i + 1].payload) == Some(o.rows[i].value)
    {
      RowIsRead(o.rows[i].value);
      RowSaid(o.rows[i].value);
      assert said[i + 1] == SaidIn(rest)[i];
    }
  }

  /** A statement that returns no columns is answered by its end alone. */
  lemma ClientReadsTheEnd(o: Outcome)
    requires o.fields == [] && forall row :: row in o.rows ==> row.Ok?
    ensures |SaidIn(Streamed(o))| == 1 && SaysEnd(SaidIn(Streamed(o))[0], o)
  {
    hide Drained, SaysEnd;
    RowsThenEnd(o, o.rows);
    assert Streamed(o) == Drained(o, o.rows);
  }

  // ----- what fails before any row, and what is asked -----

  /** The text of a Query message: its payload without trailing NULs. */
  lemma {:induction false} TrimmedText(b: Bytes)
    ensures var q := TrimNuls(b);
      |q| <= |b| && b[..|q|] == q && (forall i :: |q| <= i < |b| ==> b[i] == 0) && (q != [] ==> Last(q) != 0)
  {
    if b != [] && Last(b) == 0 {
      TrimmedText(Front(b));
    }
  }

  function RefusalEvent(): (e: Event)
    ensures e.Said?
  {
    ErrorEvent(Raw("0A000"), Raw(TRANSACTIONS_UNSUPPORTED))
  }

  /** A query is refused, with one error and nothing asked, exactly when its first word is one of the eight. */
  lemma RefusedExactlyWhen(p: Proxy, key: Bytes, m: Msg, n: nat)
    requires m.kind == 'Q' as int
    ensures var text := QueryText(TrimNuls(m.payload));
      && (IsTransaction(text) ==> Turn(p, key, m, n) == [RefusalEvent()])
      && SaysError(RefusalEvent().m, UNSUPPORTED, Raw(TRANSACTIONS_UNSUPPORTED))
      && (!IsTransaction(text) ==> |Turn(p, key, m, n)| > 1 && Turn(p, key, m, n)[0].Resolved?)
  {
    CodesAre();
    ErrorIsRead(Raw("0A000"), Raw(TRANSACTIONS_UNSUPPORTED));
    hide Raw, ErrorEvent, SaysError, Sql.IsTransactionControl, IsTransaction, QueryText, Sql.ConsistencyFromQuery;
    TransactionControlExactlyWhen(QueryText(TrimNuls(m.payload)));
    NothingForwardedIsEmpty(p.answers(n), TrimNuls(m.payload));
  }

  lemma NothingForwardedIsEmpty(a: Answer, query: Bytes)
    ensures Forwarded(a, query) != []
  {
    hide ErrorEvent, NoBackend, Raw, Streamed;
  }

  /** A query without a hint is looked up as strong, whatever the default ceiling. */
  lemma UnhintedQueriesAreStrong(p: Proxy, key: Bytes, m: Msg, n: nat, blanks: string, t: string)
    requires m.kind == 'Q' as int && QueryText(TrimNuls(m.payload)) == blanks + t
    requires AllBlank(blanks) && (t == "" || !AllBlank([t[0]])) && !("--" <= t)
    requires !IsTransaction(blanks + t)
    ensures Turn(p, key, m, n)[..1] == [Resolved(key, "strong", 0)]
  {
    hide Sql.IsTransactionControl, IsTransaction, QueryText, Sql.ConsistencyFromQuery, AllBlank, Forwarded;
    TransactionControlExactlyWhen(blanks + t);
    UnhintedIsStrong(blanks, t, p.defaultMaxLagMS);
    assert ([Resolved(key, "strong", 0)] + Forwarded(p.answers(n), TrimNuls(m.payload)))[..1] == [Resolved(key, "strong", 0)];
  }

  lemma {:induction false} DrainedAsksNobody(o: Outcome, rows: seq<Row>)
    ensures forall e :: e in Drained(o, rows) ==> !e.Queried? && !e.Pooled?
  {
    hide ErrorPayload, CString, Half, Cells;
    if rows != [] {
      DrainedAsksNobody(o, rows[1..]);
    }
  }

  /** What reaches a backend is the client's own query, on the node it resolved to, from a pool that was got. */
  lemma QueriesAreTheClients(p: Proxy, key: Bytes, m: Msg, n: nat)
    ensures forall e :: e in Turn(p, key, m, n) && e.Pooled? ==> p.answers(n).resolved == Result.Ok(e.addr)
    ensures forall e :: e in Turn(p, key, m, n) && e.Queried? ==>
      && m.kind == 'Q' as int && e.query == TrimNuls(m.payload)
      && p.answers(n).resolved == Result.Ok(e.addr) && p.answers(n).pooled.None?
      && !IsTransaction(QueryText(e.query))
  {
    hide ErrorPayload, Raw, NoBackend, Half, Columns, Drained, QueryText, Sql.IsTransactionControl, Sql.ConsistencyFromQuery, IsTransaction;
    var a := p.answers(n);
    if m.kind == 'Q' as int {
      TransactionControlExactlyWhen(QueryText(TrimNuls(m.payload)));
    }
    if a.queried.Ok? {
      DrainedAsksNobody(a.queried.value, a.queried.value.rows);
    }
  }

  /** A query that fails before any row: the one reply says which step failed, in its own code and words. */
  lemma EarlyFailuresAreRead(p: Proxy, key: Bytes, m: Msg, n: nat)
    requires m.kind == 'Q' as int && !IsTransaction(QueryText(TrimNuls(m.payload)))
    ensures var a, said := p.answers(n), SaidIn(Turn(p, key, m, n));
      && (a.resolved.Err? ==> |said| == 1 && SaysError(said[0], INTERNAL, a.resolved.error))
      && (a.resolved.Ok? && a.pooled.Some? ==>
            |said| == 1 && SaysError(said[0], CONNECTION, NoBackend(a.resolved.value, a.pooled.value)))
      && (a.resolved.Ok? && a.pooled.None? && a.queried.Err? ==> |said| == 1 && SaysFailure(said[0], a.queried.error))
      && (a.resolved.Ok? && a.pooled.None? && a.queried.Ok? ==> said == SaidIn(Streamed(a.queried.value)))
  {
    CodesAre();
    hide Raw, ErrorEvent, FailureEvent, SaysError, SaysFailure, Sql.IsTransactionControl, IsTransaction, QueryText;
    hide Sql.ConsistencyFromQuery, NoBackend, Streamed, INTERNAL, CONNECTION;
    var query := TrimNuls(m.payload);
    TransactionControlExactlyWhen(QueryText(query));
    var (level, maxLagMS) := Sql.ConsistencyFromQuery(QueryText(query), p.defaultMaxLagMS);
    SaidOfCons(Resolved(key, level, maxLagMS), Forwarded(p.answers(n), query));
    ForwardedSaid(p.answers(n), query);
  }

  lemma ForwardedSaid(a: Answer, query: Bytes)
    ensures var said := SaidIn(Forwarded(a, query));
      && (a.resolved.Err? ==> |said| == 1 && SaysError(said[0], INTERNAL, a.resolved.error))
      && (a.resolved.Ok? && a.pooled.Some? ==>
            |said| == 1 && SaysError(said[0], CONNECTION, NoBackend(a.resolved.value, a.pooled.value)))
      && (a.resolved.Ok? && a.pooled.None? && a.queried.Err? ==> |said| == 1 && SaysFailure(said[0], a.queried.error))
      && (a.resolved.Ok? && a.pooled.None? && a.queried.Ok? ==> said == SaidIn(Streamed(a.queried.value)))
  {
    CodesAre();
    hide Raw, ErrorEvent, FailureEvent, SaysError, SaysFailure, NoBackend, Streamed, INTERNAL, CONNECTION;
    match a.resolved {
      case Err(e) =>
        ErrorIsRead(Raw("XX000"), e);
        OneSaid([], ErrorEvent(Raw("XX000"), e));
      case Ok(addr) =>
        if a.pooled.Some? {
          var text := NoBackend(addr, a.pooled.value);
          ErrorIsRead(Raw("08006"), text);
          OneSaid([Pooled(addr)], ErrorEvent(Raw("08006"), text));
          assert Forwarded(a, query) == [Pooled(addr)] + [ErrorEvent(Raw("08006"), text)];
          SaidOfCons(Pooled(addr), []);
          assert [Pooled(addr)] + [] == [Pooled(addr)];
        } else {
          var result := match a.queried case Err(f) => [FailureEvent(f)] case Ok(o) => Streamed(o);
          assert Forwarded(a, query) == [Pooled(addr)] + ([Queried(addr, query)] + result);
          SaidOfCons(Pooled(addr), [Queried(addr, query)] + result);
          SaidOfCons(Queried(addr, query), result);
          if a.queried.Err? {
            FailureIsRead(a.queried.error);
            OneSaid([], FailureEvent(a.queried.error));
          }
        }
    }
  }

  lemma OneSaid(before: seq<Event>, e: Event)
    requires e.Said?
    ensures SaidIn(before + [e]) == SaidIn(before) + [e.m]
    ensures SaidIn([e]) == [e.m]
  {
    SaidAppend(before, [e]);
    SaidOfCons(e, []);
    assert [e] + [] == [e];
  }

  /** The words for a pool that could not be had name the node and the reason. */
  lemma NoBackendSays(addr: string, e: Bytes)
    requires forall k :: 0 <= k < |addr| ==> addr[k] as int < 256
    ensures QueryText(NoBackend(addr, e)) == "connecting to backend " + addr + ": " + QueryText(e)
  {
    RawIs("connecting to backend ", 0);
    RawIs(addr, 0);
    RawIs(": ", 0);
    hide Raw;
    TextAppend(Raw("connecting to backend "), Raw(addr));
    TextAppend(Raw("connecting to backend ") + Raw(addr), Raw(": "));
    TextAppend(Raw("connecting to backend ") + Raw(addr) + Raw(": "), e);
  }

  lemma TextAppend(a: Bytes, b: Bytes)
    ensures QueryText(a + b) == QueryText(a) + QueryText(b)
  {
  }

  /** A message that is not a query is answered by an error that says so, and asks nothing. */
  lemma OtherMessagesAreUnsupported(p: Proxy, key: Bytes, m: Msg, n: nat)
    requires m.kind != 'Q' as int
    ensures var es := Turn(p, key, m, n);
      |es| == 1 && es[0].Said? && SaysError(es[0].m, UNSUPPORTED, Raw("unsupported message type ") + p.quoted(m.kind))
  {
    CodesAre();
    hide Raw, ErrorEvent, SaysError, UNSUPPORTED;
    ErrorIsRead(Raw("0A000"), Raw("unsupported message type ") + p.quoted(m.kind));
  }

  /** The requests served are the messages read, up to the first Terminate. */
  lemma {:induction false} RequestsAreTheMessages(input: Bytes)
    ensures var ms, rs := Messages(input).0, Requests(input);
      && rs <= ms && (forall i :: 0 <= i < |rs| ==> rs[i].kind != 'X' as int)
      && (|rs| < |ms| ==> ms[|rs|].kind == 'X' as int)
    decreases |input|
  {
    hide Message;
    match Message(input) {
      case Got(Err(_), _) =>
      case Got(Ok(m), rest) =>
        MessageShrinks(input);
        if m.kind != 'X' as int {
          RequestsAreTheMessages(rest);
        }
    }
  }

  // ----- promptness -----

  /** Every ReadyForQuery and every refusal of encryption is followed at once by a flush. */
  predicate Prompt(es: seq<Event>) {
    forall i :: 0 <= i < |es| && (es[i] == READY || es[i] == Refused) ==> i + 1 < |es| && es[i + 1] == Flushed
  }

  lemma PromptAppend(a: seq<Event>, b: seq<Event>)
    requires Prompt(a) && Prompt(b)
    ensures Prompt(a + b)
  {
    hide READY;
    var c := a + b;
    forall i | 0 <= i < |c| && (c[i] == READY || c[i] == Refused) ensures i + 1 < |c| && c[i + 1] == Flushed {
      if i < |a| {
        assert a[i] == c[i];
        assert a[i + 1] == c[i + 1];
      } else {
        assert b[i - |a|] == c[i];
        assert b[i - |a| + 1] == c[i + 1];
      }
    }
  }

  lemma NeitherIsPrompt(es: seq<Event>)
    requires forall e :: e in es ==> e != READY && e != Refused
    ensures Prompt(es)
  {
    hide READY;
    forall i | 0 <= i < |es| ensures es[i] != READY && es[i] != Refused {
      assert es[i] in es;
    }
  }

  lemma {:induction false} DrainedIsNeither(o: Outcome, rows: seq<Row>)
    ensures forall e :: e in Drained(o, rows) ==> e != READY && e != Refused
  {
    hide ErrorPayload, CString, Half, Cells;
    if rows != [] {
      DrainedIsNeither(o, rows[1..]);
    }
  }

  lemma TurnIsPrompt(p: Proxy, key: Bytes, m: Msg, n: nat)
    ensures Prompt(Turn(p, key, m, n))
  {
    hide Prompt, ErrorPayload, Raw, NoBackend, Half, Columns, Drained, QueryText, Sql.IsTransactionControl, Sql.ConsistencyFromQuery;
    var a := p.answers(n);
    if a.queried.Ok? {
      DrainedIsNeither(a.queried.value, a.queried.value.rows);
    }
    NeitherIsPrompt(Turn(p, key, m, n));
  }

  lemma PairIsPrompt(e: Event)
    requires e == READY || e == Refused
    ensures Prompt([e, Flushed])
  {
    assert READY != Flushed;
    hide READY;
  }

  lemma {:induction false} ServedIsPrompt(p: Proxy, key: Bytes, requests: seq<Msg>, n: nat)
    ensures Prompt(Served(p, key, requests, n))
  {
    if requests != [] {
      hide Prompt, Turn;
      var turn := Turn(p, key, requests[0], n);
      TurnIsPrompt(p, key, requests[0], n);
      PairIsPrompt(READY);
      PromptAppend(turn, [READY, Flushed]);
      ServedIsPrompt(p, key, requests[1..], n + 1);
      PromptAppend(turn + [READY, Flushed], Served(p, key, requests[1..], n + 1));
    }
  }

  lemma {:induction false} StatusesAreNeither(pairs: seq<(Bytes, Bytes)>)
    ensures forall e :: e in Statuses(pairs) ==> e != READY && e != Refused
  {
    hide CString;
    if pairs != [] {
      StatusesAreNeither(Front(pairs));
    }
  }

  lemma HandshakeIsPrompt(params: map<Bytes, Bytes>)
    ensures Prompt(Handshake(params))
  {
    hide Prompt, HandshakeParameters, Statuses, Word;
    var before := [AUTHENTICATION_OK] + Statuses(HandshakeParameters(params)) + [BACKEND_KEY_DATA];
    StatusesAreNeither(HandshakeParameters(params));
    NeitherIsPrompt(before);
    PairIsPrompt(READY);
    PromptAppend(before, [READY, Flushed]);
    assert Handshake(params) == before + [READY, Flushed];
  }

  lemma {:induction false} RefusalsArePrompt(k: nat)
    ensures Prompt(Refusals(k))
  {
    if k > 0 {
      hide Prompt;
      RefusalsArePrompt(k - 1);
      PairIsPrompt(Refused);
      PromptAppend(Refusals(k - 1), [Refused, Flushed]);
    }
  }

  /** No client waits for a reply that is still in the buffer. */
  lemma EverySessionIsPrompt(p: Proxy, input: Bytes)
    ensures Prompt(Transcript(p, input))
  {
    hide Prompt, Refusals, Handshake, Served, Requests, Greet, StartedWith, ShardKey;
    var g := Greet(input);
    RefusalsArePrompt(g.refused);
    match StartedWith(g.section) {
      case None =>
        assert Refusals(g.refused) + [] == Refusals(g.refused);
      case Some(params) =>
        var hello, served := Handshake(params), Served(p, ShardKey(params), Requests(g.rest), 0);
        HandshakeIsPrompt(params);
        ServedIsPrompt(p, ShardKey(params), Requests(g.rest), 0);
        PromptAppend(hello, served);
        PromptAppend(Refusals(g.refused), hello + served);
    }
  }

  // ----- the handshake -----

  /** The client's reading of a ParameterStatus: a name and a value, each NUL-terminated. */
  function StatusRead(b: Bytes): Option<(Bytes, Bytes)> {
    var k := NulAt(b);
    if k == |b| then None
    else
      var rest := b[k + 1..];
      if NulAt(rest) + 1 != |rest| then None else Some((b[..k], rest[..NulAt(rest)]))
  }

  lemma StatusIsRead(name: Bytes, value: Bytes)
    requires NulFree(name) && NulFree(value)
    ensures StatusRead(CString(name) + CString(value)) == Some((name, value))
  {
    hide NulFree;
    var b := CString(name) + CString(value);
    NulAtCString(name, CString(value));
    NulAtCString(value, []);
    assert CString(value) + [] == CString(value);
  }

  lemma {:induction false} StatusesSaid(pairs: seq<(Bytes, Bytes)>)
    ensures |SaidIn(Statuses(pairs))| == |pairs|
    ensures forall i :: 0 <= i < |pairs| ==>
      SaidIn(Statuses(pairs))[i] == Msg('S' as int, CString(pairs[i].0) + CString(pairs[i].1))
  {
    hide CString;
    if pairs != [] {
      StatusesSaid(Front(pairs));
      var e := Said(Msg('S' as int, CString(Last(pairs).0) + CString(Last(pairs).1)));
      OneSaid(Statuses(Front(pairs)), e);
    }
  }

  lemma HandshakeSaid(params: map<Bytes, Bytes>)
    ensures SaidIn(Handshake(params)) ==
      [AUTHENTICATION_OK.m] + (SaidIn(Statuses(HandshakeParameters(params))) + ([BACKEND_KEY_DATA.m] + [READY.m]))
  {
    hide HandshakeParameters, Statuses, Word, SaidIn;
    var statuses, tail := Statuses(HandshakeParameters(params)), [BACKEND_KEY_DATA] + ([READY] + [Flushed]);
    assert Handshake(params) == [AUTHENTICATION_OK] + (statuses + tail);
    SaidOfCons(AUTHENTICATION_OK, statuses + tail);
    SaidAppend(statuses, tail);
    SaidOfCons(BACKEND_KEY_DATA, [READY] + [Flushed]);
    SaidOfCons(READY, [Flushed]);
    SaidOfCons(Flushed, []);
    assert [Flushed] + [] == [Flushed] && [READY.m] + [] == [READY.m];
  }

  /** The greeting as the client reads it: authenticated, each parameter under its own name, no key, ready and idle. */
  lemma HandshakeIsRead(params: map<Bytes, Bytes>)
    ensures var said, pairs := SaidIn(Handshake(params)), HandshakeParameters(params);
      && |said| == 14 && |pairs| == 11
      && said[0] == Msg('R' as int, [0, 0, 0, 0])
      && (forall i :: 0 <= i < 11 && NulFree(pairs[i].0) && NulFree(pairs[i].1) ==>
            said[i + 1].kind == 'S' as int && StatusRead(said[i + 1].payload) == Some(pairs[i]))
      && said[12] == Msg('K' as int, [0, 0, 0, 0, 0, 0, 0, 0])
      && said[13] == Msg('Z' as int, ['I' as int])
  {
    var pairs := HandshakeParameters(params);
    assert |pairs| == 11;
    NoKey();
    hide HandshakeParameters, Raw, Statuses, CString, NulFree, StatusRead, Word, SaidIn, Handshake;
    HandshakeSaid(params);
    StatusesSaid(pairs);
    var said, middle := SaidIn(Handshake(params)), SaidIn(Statuses(pairs));
    assert said[12] == BACKEND_KEY_DATA.m && said[13] == READY.m;
    forall i | 0 <= i < 11 && NulFree(pairs[i].0) && NulFree(pairs[i].1)
      ensures said[i + 1].kind == 'S' as int && StatusRead(said[i + 1].payload) == Some(pairs[i])
    {
      assert said[i + 1] == middle[i];
      StatusIsRead(pairs[i].0, pairs[i].1);
    }
  }

  lemma NoKey()
    ensures Word(0) + Word(0) == [0, 0, 0, 0, 0, 0, 0, 0]
  {
  }

  /** The parameters a driver depends on, and the client's own two. */
  lemma ParametersAnnounced(params: map<Bytes, Bytes>)
    ensures var pairs := HandshakeParameters(params);
      && (Raw("standard_conforming_strings"), Raw("on")) in pairs && (Raw("client_encoding"), Raw("UTF8")) in pairs
      && (Raw("session_authorization"), Lookup(params, "user")) in pairs
      && (Raw("application_name"), Lookup(params, "application_name")) in pairs
  {
    hide Raw, Lookup;
    var pairs := HandshakeParameters(params);
    assert pairs[2] in pairs && pairs[7] in pairs && pairs[9] in pairs && pairs[10] in pairs;
  }
}
