/** What a client can rely on: the reply grammar, honest acknowledgement, and bytes that read back. */
module SessionLaws {
  import opened Prelude
  import opened Wire
  import opened WireRows
  import Sql
  import opened Transactions
  import opened Session

  // ----- the messages of a trace -----

  function SaidIn(es: seq<Event>): seq<Msg> {
    if es == [] then [] else SaidIn(Front(es)) + if Last(es).Said? then [Last(es).m] else []
  }

  function Kinds(ms: seq<Msg>): seq<char> {
    seq(|ms|, i requires 0 <= i < |ms| => ms[i].kind as char)
  }

  function KindsIn(es: seq<Event>): seq<char> {
    Kinds(SaidIn(es))
  }

  lemma {:induction false} SaidAppend(a: seq<Event>, b: seq<Event>)
    ensures SaidIn(a + b) == SaidIn(a) + SaidIn(b)
  {
    if b == [] {
      assert a + b == a;
    } else {
      assert Front(a + b) == a + Front(b) && Last(a + b) == Last(b);
      SaidAppend(a, Front(b));
    }
  }

  lemma KindsAppend(a: seq<Event>, b: seq<Event>)
    ensures KindsIn(a + b) == KindsIn(a) + KindsIn(b)
  {
    SaidAppend(a, b);
  }

  lemma KindsOfOne(e: Event)
    ensures KindsIn([e]) == if e.Said? then [e.m.kind as char] else []
  {
    assert Front([e]) == [];
    assert SaidIn([e]) == if e.Said? then [e.m] else [];
  }

  lemma NoKinds()
    ensures KindsIn([]) == []
  {
  }

  lemma KindsOfCons(e: Event, es: seq<Event>)
    ensures KindsIn([e] + es) == (if e.Said? then [e.m.kind as char] else []) + KindsIn(es)
  {
    KindsAppend([e], es);
    KindsOfOne(e);
  }

  // ----- the reply grammar -----

  /** A statement's end: CommandComplete or ErrorResponse. */
  predicate IsEnd(c: char) {
    c == 'C' || c == 'E'
  }

  /** Rows, then an end. */
  predicate IsTail(ks: seq<char>) {
    ks != [] && IsEnd(Last(ks)) && forall i :: 0 <= i < |ks| - 1 ==> ks[i] == 'D'
  }

  /** E, or C, or T D* C, or T D* E. */
  predicate IsReply(ks: seq<char>) {
    || ks == ['E'] || ks == ['C']
    || (ks != [] && ks[0] == 'T' && IsTail(ks[1..]))
  }

  /** `n` replies, each followed by ReadyForQuery. */
  ghost predicate IsConversation(ks: seq<char>, n: nat) {
    if n == 0 then ks == []
    else exists k :: 0 <= k < |ks| && IsReply(ks[..k]) && ks[k] == 'Z' && IsConversation(ks[k + 1..], n - 1)
  }

  function Ready(ks: seq<char>): nat {
    if ks == [] then 0 else (if ks[0] == 'Z' then 1 else 0) + Ready(ks[1..])
  }

  lemma {:induction false} ReadySkips(ks: seq<char>, k: nat)
    requires k <= |ks| && 'Z' !in ks[..k]
    ensures Ready(ks) == Ready(ks[k..])
  {
    if k > 0 {
      assert ks[0] in ks[..k];
      forall c | c in ks[1..][..k - 1] ensures c in ks[..k] {
        var i :| 0 <= i < k - 1 && ks[1..][i] == c;
        assert ks[..k][i + 1] == c;
      }
      ReadySkips(ks[1..], k - 1);
      assert ks[1..][k - 1..] == ks[k..];
    } else {
      assert ks[0..] == ks;
    }
  }

  lemma RepliesAreNotReady(ks: seq<char>)
    requires IsReply(ks)
    ensures 'Z' !in ks
  {
    forall i | 0 < i < |ks| ensures ks[i] == ks[1..][i - 1] {}
  }

  lemma ReadyAfterReply(ks: seq<char>, k: nat)
    requires k < |ks| && IsReply(ks[..k]) && ks[k] == 'Z'
    ensures Ready(ks) == 1 + Ready(ks[k + 1..])
  {
    RepliesAreNotReady(ks[..k]);
    ReadySkips(ks, k);
    hide IsReply;
    assert ks[k..][1..] == ks[k + 1..];
  }

  lemma NoReplies(ks: seq<char>)
    requires IsConversation(ks, 0)
    ensures Ready(ks) == 0
  {
  }

  lemma FirstReply(ks: seq<char>, n: nat) returns (k: nat)
    requires n > 0 && IsConversation(ks, n)
    ensures k < |ks| && IsReply(ks[..k]) && ks[k] == 'Z' && IsConversation(ks[k + 1..], n - 1)
  {
    hide IsReply;
    k :| 0 <= k < |ks| && IsReply(ks[..k]) && ks[k] == 'Z' && IsConversation(ks[k + 1..], n - 1);
  }

  /** So a client that counts ReadyForQuery always knows how many of its requests are answered. */
  lemma {:induction false} OneReadyPerRequest(ks: seq<char>, n: nat)
    requires IsConversation(ks, n)
    ensures Ready(ks) == n
  {
    hide IsReply, Ready, IsConversation;
    if n == 0 {
      NoReplies(ks);
    } else {
      var k := FirstReply(ks, n);
      ReadyAfterReply(ks, k);
      OneReadyPerRequest(ks[k + 1..], n - 1);
    }
  }

  lemma {:induction false} DrainedKinds(o: Outcome, rows: seq<Row>)
    ensures IsTail(KindsIn(Drained(o, rows)))
    ensures o.fields == [] ==> |KindsIn(Drained(o, rows))| == 1
  {
    hide ErrorPayload, CString, Half, Cells, KindsIn;
    if rows == [] {
      var final := if o.failure.Some? then FailureEvent(o.failure.value) else Complete(o.tag);
      assert Drained(o, rows) == [Ended(o.failure)] + [final];
      KindsOfCons(Ended(o.failure), [final]);
      KindsOfOne(final);
    } else if o.fields == [] {
      DrainedKinds(o, rows[1..]);
      KindsOfCons(Fetched, Drained(o, rows[1..]));
    } else {
      DrainedRow(o, rows);
      if rows[0].Ok? {
        DrainedKinds(o, rows[1..]);
      }
    }
  }

  lemma KindsOfFetched(e: Event, rest: seq<Event>)
    requires e.Said?
    ensures KindsIn([Fetched, e] + rest) == [e.m.kind as char] + KindsIn(rest)
  {
    hide KindsIn;
    assert [Fetched, e] + rest == [Fetched] + ([e] + rest);
    KindsOfCons(Fetched, [e] + rest);
    KindsOfCons(e, rest);
    assert [] + ([e.m.kind as char] + KindsIn(rest)) == [e.m.kind as char] + KindsIn(rest);
  }

  lemma DrainedRow(o: Outcome, rows: seq<Row>)
    requires rows != [] && o.fields != []
    ensures rows[0].Err? ==> KindsIn(Drained(o, rows)) == ['E']
    ensures rows[0].Ok? ==> KindsIn(Drained(o, rows)) == ['D'] + KindsIn(Drained(o, rows[1..]))
  {
    hide ErrorPayload, CString, Half, Cells, KindsIn;
    match rows[0] {
      case Err(f) =>
        KindsOfFetched(FailureEvent(f), []);
        NoKinds();
        assert [Fetched, FailureEvent(f)] + [] == [Fetched, FailureEvent(f)];
      case Ok(values) =>
        KindsOfFetched(RowEvent(values), Drained(o, rows[1..]));
    }
  }

  lemma StreamedKinds(o: Outcome)
    ensures IsReply(KindsIn(Streamed(o)))
  {
    hide Half, Columns, KindsIn, Drained;
    DrainedKinds(o, o.rows);
    var rest := Drained(o, o.rows);
    if o.fields == [] {
      assert Streamed(o) == rest;
      var ks := KindsIn(rest);
      assert ks == [Last(ks)];
    } else {
      KindsOfCons(Described(o.fields), rest);
      assert (['T'] + KindsIn(rest))[1..] == KindsIn(rest);
    }
  }

  lemma ForwardedKinds(a: Answer, query: Bytes)
    ensures IsReply(KindsIn(Forwarded(a, query)))
  {
    hide ErrorPayload, Raw, NoBackend, KindsIn, Streamed;
    match a.resolved {
      case Err(e) => KindsOfOne(ErrorEvent(Raw("XX000"), e));
      case Ok(addr) =>
        if a.pooled.Some? {
          var e := ErrorEvent(Raw("08006"), NoBackend(addr, a.pooled.value));
          assert Forwarded(a, query) == [Pooled(addr)] + [e];
          KindsOfCons(Pooled(addr), [e]);
          KindsOfOne(e);
        } else {
          var result := match a.queried case Err(f) => [FailureEvent(f)] case Ok(o) => Streamed(o);
          assert Forwarded(a, query) == [Pooled(addr)] + ([Queried(addr, query)] + result);
          KindsOfCons(Pooled(addr), [Queried(addr, query)] + result);
          KindsOfCons(Queried(addr, query), result);
          match a.queried {
            case Err(f) => KindsOfOne(FailureEvent(f));
            case Ok(o) => StreamedKinds(o);
          }
        }
    }
  }

  /** Every request is answered by exactly one reply. */
  lemma TurnIsOneReply(p: Proxy, key: Bytes, m: Msg, n: nat)
    ensures IsReply(KindsIn(Turn(p, key, m, n)))
  {
    hide ErrorPayload, Raw, KindsIn, Forwarded, Sql.IsTransactionControl, Sql.ConsistencyFromQuery;
    if m.kind == 'Q' as int {
      var query := TrimNuls(m.payload);
      if Sql.IsTransactionControl(QueryText(query)) {
        KindsOfOne(ErrorEvent(Raw("0A000"), Raw(TRANSACTIONS_UNSUPPORTED)));
      } else {
        var (level, maxLagMS) := Sql.ConsistencyFromQuery(QueryText(query), p.defaultMaxLagMS);
        KindsOfCons(Resolved(key, level, maxLagMS), Forwarded(p.answers(n), query));
        ForwardedKinds(p.answers(n), query);
      }
    } else {
      KindsOfOne(ErrorEvent(Raw("0A000"), Raw("unsupported message type ") + p.quoted(m.kind)));
    }
  }

  lemma ReadyKinds()
    ensures KindsIn([READY, Flushed]) == ['Z']
  {
    assert [READY, Flushed] == [READY] + [Flushed];
    KindsOfCons(READY, [Flushed]);
    KindsOfOne(Flushed);
  }

  lemma {:induction false} ServedIsAConversation(p: Proxy, key: Bytes, requests: seq<Msg>, n: nat)
    ensures IsConversation(KindsIn(Served(p, key, requests, n)), |requests|)
  {
    hide Turn, KindsIn, IsReply;
    if requests == [] {
      NoKinds();
    } else {
      var turn, rest := Turn(p, key, requests[0], n), Served(p, key, requests[1..], n + 1);
      TurnIsOneReply(p, key, requests[0], n);
      ReadyKinds();
      KindsAppend(turn + [READY, Flushed], rest);
      KindsAppend(turn, [READY, Flushed]);
      ServedIsAConversation(p, key, requests[1..], n + 1);
      var ks, k := KindsIn(Served(p, key, requests, n)), |KindsIn(turn)|;
      assert ks[..k] == KindsIn(turn) && ks[k] == 'Z' && ks[k + 1..] == KindsIn(rest);
    }
  }

  // ----- the handshake -----

  lemma {:induction false} StatusKinds(pairs: seq<(Bytes, Bytes)>)
    ensures |KindsIn(Statuses(pairs))| == |pairs| && forall c :: c in KindsIn(Statuses(pairs)) ==> c == 'S'
  {
    hide KindsIn, CString;
    if pairs == [] {
      NoKinds();
    } else {
      StatusKinds(Front(pairs));
      var e := Said(Msg('S' as int, CString(Last(pairs).0) + CString(Last(pairs).1)));
      KindsAppend(Statuses(Front(pairs)), [e]);
      KindsOfOne(e);
    }
  }

  /** R, eleven S, K, Z. */
  const GREETING := "RSSSSSSSSSSSKZ"

  lemma HandshakeKinds(params: map<Bytes, Bytes>)
    ensures KindsIn(Handshake(params)) == GREETING
  {
    var pairs := HandshakeParameters(params);
    assert |pairs| == 11;
    hide KindsIn, HandshakeParameters, Word, Statuses;
    StatusKinds(pairs);
    var statuses, tail := Statuses(pairs), [BACKEND_KEY_DATA] + [READY, Flushed];
    assert Handshake(params) == [AUTHENTICATION_OK] + (statuses + tail);
    KindsOfCons(AUTHENTICATION_OK, statuses + tail);
    KindsAppend(statuses, tail);
    KindsOfCons(BACKEND_KEY_DATA, [READY, Flushed]);
    ReadyKinds();
    var s := KindsIn(statuses);
    assert forall i :: 0 <= i < 11 ==> s[i] in s;
    assert s == "SSSSSSSSSSS";
    assert ['R'] + (s + (['K'] + ['Z'])) == GREETING;
  }

  lemma {:induction false} RefusalKinds(k: nat)
    ensures KindsIn(Refusals(k)) == []
  {
    hide KindsIn;
    NoKinds();
    if k > 0 {
      RefusalKinds(k - 1);
      KindsAppend(Refusals(k - 1), [Refused, Flushed]);
      assert [Refused, Flushed] == [Refused] + [Flushed];
      KindsOfCons(Refused, [Flushed]);
      KindsOfOne(Flushed);
    }
  }

  /** The grammar of every session: nothing for a failed startup, else the greeting and a conversation. */
  lemma SessionGrammar(p: Proxy, input: Bytes)
    ensures var g, ks := Greet(input), KindsIn(Transcript(p, input));
      if StartedWith(g.section).None? then ks == []
      else |ks| >= 14 && ks[..14] == GREETING && IsConversation(ks[14..], |Requests(g.rest)|)
  {
    hide KindsIn, Handshake, Served, Requests, Greet, StartedWith, IsConversation, ShardKey;
    var g := Greet(input);
    RefusalKinds(g.refused);
    var ks := KindsIn(Transcript(p, input));
    match StartedWith(g.section) {
      case None =>
        assert Refusals(g.refused) + [] == Refusals(g.refused);
      case Some(params) =>
        var hello, served := Handshake(params), Served(p, ShardKey(params), Requests(g.rest), 0);
        KindsAppend(Refusals(g.refused), hello + served);
        KindsAppend(hello, served);
        HandshakeKinds(params);
        ServedIsAConversation(p, ShardKey(params), Requests(g.rest), 0);
        assert |GREETING| == 14;
        assert ks == [] + (GREETING + KindsIn(served));
        assert ks[14..] == KindsIn(served);
    }
  }

  /** A client's startup parameters arrive as it sent them, however many encryption requests come first. */
  lemma StartupRoundTrip(requests: seq<nat>, strs: seq<Bytes>, rest: Bytes)
    requires forall i :: 0 <= i < |requests| ==> requests[i] == SSL_REQUEST || requests[i] == GSS_REQUEST
    requires AllNulFree(strs) && |Joined(strs)| + 9 < 0x1_0000_0000
    ensures var g := Greet(Hello(requests, Joined(strs) + [0]) + rest);
      g.refused == |requests| && g.rest == rest && StartedWith(g.section) == Some(Params(strs))
  {
    var section := Joined(strs) + [0];
    GreetingRoundTrip(requests, section, rest);
    SplitInvertsJoin(strs, strs);
    SplitsIntoItsStrings(section, strs);
    hide Greet, Hello, Joined, Strings, Params, AllNulFree;
  }

  // ----- honest acknowledgement -----

  predicate Acknowledges(e: Event) {
    e.Said? && e.m.kind == 'C' as int
  }

  /** CommandComplete follows directly on the end of the rows, with no error. */
  predicate Honest(es: seq<Event>) {
    forall i :: 0 <= i < |es| && Acknowledges(es[i]) ==> i > 0 && es[i - 1] == Ended(None)
  }

  /** No transaction statement reaches a backend, and every lookup asks for something the router can use. */
  ghost predicate Careful(e: Event, defaultMaxLagMS: int) {
    && (e.Queried? ==> !IsTransaction(QueryText(e.query)))
    && (e.Resolved? && defaultMaxLagMS >= 0 ==>
        || e.level == "strong" || e.level == "eventual" || (e.level == "bounded_staleness" && e.maxLagMS >= 0))
  }

  ghost predicate Sound(es: seq<Event>, defaultMaxLagMS: int) {
    Honest(es) && forall e :: e in es ==> Careful(e, defaultMaxLagMS)
  }

  lemma SoundAppend(a: seq<Event>, b: seq<Event>, d: int)
    requires Sound(a, d) && Sound(b, d)
    ensures Sound(a + b, d)
  {
    hide Careful, Acknowledges;
    forall i | 0 <= i < |a + b| && Acknowledges((a + b)[i]) ensures i > 0 && (a + b)[i - 1] == Ended(None) {
      if i >= |a| {
        assert b[i - |a|] == (a + b)[i];
      }
    }
  }

  lemma SoundOne(e: Event, d: int)
    requires Careful(e, d) && !Acknowledges(e)
    ensures Sound([e], d)
  {
    hide Careful, Acknowledges;
    assert forall x :: x in [e] ==> x == e;
  }

  lemma SoundCons(e: Event, es: seq<Event>, d: int)
    requires Careful(e, d) && !Acknowledges(e) && Sound(es, d)
    ensures Sound([e] + es, d)
  {
    hide Careful, Acknowledges;
    SoundOne(e, d);
    SoundAppend([e], es, d);
  }

  lemma {:induction false} DrainedIsSound(o: Outcome, rows: seq<Row>, d: int)
    ensures Sound(Drained(o, rows), d)
  {
    hide ErrorPayload, CString, Half, Cells, Sound;
    if rows == [] {
      FinalIsSound(o, d);
    } else if o.fields == [] {
      DrainedIsSound(o, rows[1..], d);
      SoundCons(Fetched, Drained(o, rows[1..]), d);
    } else {
      match rows[0] {
        case Err(f) =>
          SoundOne(FailureEvent(f), d);
          SoundCons(Fetched, [FailureEvent(f)], d);
          assert Drained(o, rows) == [Fetched] + [FailureEvent(f)];
        case Ok(values) =>
          var rest := Drained(o, rows[1..]);
          DrainedIsSound(o, rows[1..], d);
          SoundCons(RowEvent(values), rest, d);
          SoundCons(Fetched, [RowEvent(values)] + rest, d);
          assert Drained(o, rows) == [Fetched] + ([RowEvent(values)] + rest);
      }
    }
  }

  lemma FinalIsSound(o: Outcome, d: int)
    ensures Sound(Drained(o, []), d)
  {
    hide ErrorPayload, CString;
    var es := Drained(o, []);
    assert |es| == 2 && es[0] == Ended(o.failure);
    assert forall e :: e in es ==> e == es[0] || e == es[1];
  }

  lemma ForwardedIsSound(a: Answer, query: Bytes, d: int)
    requires !IsTransaction(QueryText(query))
    ensures Sound(Forwarded(a, query), d)
  {
    hide ErrorPayload, Raw, NoBackend, Sound, IsTransaction, QueryText, Drained, Described, Half, Columns, Streamed;
    match a.resolved {
      case Err(e) => SoundOne(ErrorEvent(Raw("XX000"), e), d);
      case Ok(addr) =>
        if a.pooled.Some? {
          var e := ErrorEvent(Raw("08006"), NoBackend(addr, a.pooled.value));
          SoundOne(e, d);
          SoundCons(Pooled(addr), [e], d);
          assert Forwarded(a, query) == [Pooled(addr)] + [e];
        } else {
          var result := match a.queried case Err(f) => [FailureEvent(f)] case Ok(o) => Streamed(o);
          match a.queried {
            case Err(f) => SoundOne(FailureEvent(f), d);
            case Ok(o) => StreamedIsSound(o, d);
          }
          SoundCons(Queried(addr, query), result, d);
          SoundCons(Pooled(addr), [Queried(addr, query)] + result, d);
          assert Forwarded(a, query) == [Pooled(addr)] + ([Queried(addr, query)] + result);
        }
    }
  }

  lemma StreamedIsSound(o: Outcome, d: int)
    ensures Sound(Streamed(o), d)
  {
    hide Sound, Drained, Half, Columns;
    DrainedIsSound(o, o.rows, d);
    if o.fields == [] {
      assert Streamed(o) == Drained(o, o.rows);
    } else {
      SoundCons(Described(o.fields), Drained(o, o.rows), d);
    }
  }

  lemma TurnIsSound(p: Proxy, key: Bytes, m: Msg, n: nat)
    ensures Sound(Turn(p, key, m, n), p.defaultMaxLagMS)
  {
    hide ErrorPayload, Raw, Sound, Forwarded, QueryText, IsTransaction, Sql.IsTransactionControl, Sql.ConsistencyFromQuery;
    var d := p.defaultMaxLagMS;
    if m.kind == 'Q' as int {
      var query := TrimNuls(m.payload);
      TransactionControlExactlyWhen(QueryText(query));
      if Sql.IsTransactionControl(QueryText(query)) {
        SoundOne(ErrorEvent(Raw("0A000"), Raw(TRANSACTIONS_UNSUPPORTED)), d);
      } else {
        var (level, maxLagMS) := Sql.ConsistencyFromQuery(QueryText(query), d);
        if d >= 0 {
          Sql.HintsAreAlwaysUsable(QueryText(query), d);
        }
        ForwardedIsSound(p.answers(n), query, d);
        SoundCons(Resolved(key, level, maxLagMS), Forwarded(p.answers(n), query), d);
      }
    } else {
      SoundOne(ErrorEvent(Raw("0A000"), Raw("unsupported message type ") + p.quoted(m.kind)), d);
    }
  }

  lemma ReadyIsSound(d: int)
    ensures Sound([READY, Flushed], d)
  {
  }

  lemma {:induction false} ServedIsSound(p: Proxy, key: Bytes, requests: seq<Msg>, n: nat)
    ensures Sound(Served(p, key, requests, n), p.defaultMaxLagMS)
  {
    if requests != [] {
      hide Turn, Sound;
      var turn := Turn(p, key, requests[0], n);
      TurnIsSound(p, key, requests[0], n);
      ReadyIsSound(p.defaultMaxLagMS);
      SoundAppend(turn, [READY, Flushed], p.defaultMaxLagMS);
      ServedIsSound(p, key, requests[1..], n + 1);
      SoundAppend(turn + [READY, Flushed], Served(p, key, requests[1..], n + 1), p.defaultMaxLagMS);
    }
  }

  lemma {:induction false} StatusesAreSound(pairs: seq<(Bytes, Bytes)>, d: int)
    ensures Sound(Statuses(pairs), d)
  {
    if pairs != [] {
      hide Sound, CString;
      var e := Said(Msg('S' as int, CString(Last(pairs).0) + CString(Last(pairs).1)));
      StatusesAreSound(Front(pairs), d);
      SoundOne(e, d);
      SoundAppend(Statuses(Front(pairs)), [e], d);
    }
  }

  lemma HandshakeIsSound(params: map<Bytes, Bytes>, d: int)
    ensures Sound(Handshake(params), d)
  {
    hide Sound, HandshakeParameters, Statuses, Word;
    var statuses := Statuses(HandshakeParameters(params));
    StatusesAreSound(HandshakeParameters(params), d);
    ReadyIsSound(d);
    SoundCons(BACKEND_KEY_DATA, [READY, Flushed], d);
    SoundAppend(statuses, [BACKEND_KEY_DATA] + [READY, Flushed], d);
    SoundCons(AUTHENTICATION_OK, statuses + ([BACKEND_KEY_DATA] + [READY, Flushed]), d);
    assert Handshake(params) == [AUTHENTICATION_OK] + (statuses + ([BACKEND_KEY_DATA] + [READY, Flushed]));
  }

  lemma {:induction false} RefusalsAreSound(k: nat, d: int)
    ensures Sound(Refusals(k), d)
  {
    if k > 0 {
      hide Sound;
      RefusalsAreSound(k - 1, d);
      SoundOne(Flushed, d);
      SoundCons(Refused, [Flushed], d);
      assert [Refused] + [Flushed] == [Refused, Flushed];
      SoundAppend(Refusals(k - 1), [Refused, Flushed], d);
    }
  }

  lemma TranscriptIsSound(p: Proxy, input: Bytes)
    ensures Sound(Transcript(p, input), p.defaultMaxLagMS)
  {
    hide Sound, Refusals, Handshake, Served, Requests, Greet, StartedWith, ShardKey;
    var g, d := Greet(input), p.defaultMaxLagMS;
    RefusalsAreSound(g.refused, d);
    match StartedWith(g.section) {
      case None =>
        assert Refusals(g.refused) + [] == Refusals(g.refused);
      case Some(params) =>
        var hello, served := Handshake(params), Served(p, ShardKey(params), Requests(g.rest), 0);
        HandshakeIsSound(params, d);
        ServedIsSound(p, ShardKey(params), Requests(g.rest), 0);
        SoundAppend(hello, served, d);
        SoundAppend(Refusals(g.refused), hello + served, d);
    }
  }

  lemma {:induction false} CutShortIsAPrefix(es: seq<Event>, room: nat)
    ensures CutShort(es, room) <= es
    ensures CutShort(es, room) == es <==> Writes(es) <= room
    ensures Writes(CutShort(es, room)) <= room
  {
    if es != [] && Writes(es) > room {
      CutShortIsAPrefix(Front(es), room);
    }
  }

  /**
   * Whatever the client sends and wherever writing fails: no acknowledgement before a clean end of the rows,
   * no transaction statement on a backend, and no lookup without a usable consistency level.
   */
  lemma EverySessionIsSound(p: Proxy, input: Bytes, room: nat)
    ensures Sound(CutShort(Transcript(p, input), room), p.defaultMaxLagMS)
  {
    hide Transcript, Careful, Acknowledges, CutShort;
    var es := Transcript(p, input);
    var done := CutShort(es, room);
    TranscriptIsSound(p, input);
    CutShortIsAPrefix(es, room);
    forall i | 0 <= i < |done| ensures done[i] == es[i] {}
    assert forall e :: e in done ==> e in es;
  }

  /** A transaction keyword behind anything the scan passes over gets one error and asks nobody anything. */
  lemma CommentedTransactionsAreRefused(p: Proxy, key: Bytes, m: Msg, n: nat, before: string, word: string, rest: string)
    requires m.kind == 'Q' as int && QueryText(TrimNuls(m.payload)) == before + (word + rest)
    requires FirstWordIs(before + (word + rest), before, word, rest) && IsTransactionWord(word)
    ensures Turn(p, key, m, n) == [ErrorEvent(Raw("0A000"), Raw(TRANSACTIONS_UNSUPPORTED))]
  {
    hide Sql.IsTransactionControl, FirstWordIs, IsTransactionWord, QueryText, TrimNuls, ErrorPayload, Raw;
    RefusedExactlyForTheEight(before + (word + rest), before, word, rest);
  }

  lemma TurnAsksForItsKey(p: Proxy, key: Bytes, m: Msg, n: nat)
    ensures forall e :: e in Turn(p, key, m, n) && e.Resolved? ==> e.key == key
  {
    hide ErrorPayload, Raw, NoBackend, Half, Columns, Drained, QueryText, Sql.IsTransactionControl, Sql.ConsistencyFromQuery;
    var a := p.answers(n);
    if a.queried.Ok? {
      DrainedAsksNothing(a.queried.value, a.queried.value.rows);
    }
  }

  lemma {:induction false} DrainedAsksNothing(o: Outcome, rows: seq<Row>)
    ensures forall e :: e in Drained(o, rows) ==> !e.Resolved?
  {
    hide ErrorPayload, CString, Half, Cells;
    if rows != [] {
      DrainedAsksNothing(o, rows[1..]);
    }
  }

  lemma {:induction false} ServedAsksForItsKey(p: Proxy, key: Bytes, requests: seq<Msg>, n: nat)
    ensures forall e :: e in Served(p, key, requests, n) && e.Resolved? ==> e.key == key
  {
    hide Turn;
    if requests != [] {
      TurnAsksForItsKey(p, key, requests[0], n);
      ServedAsksForItsKey(p, key, requests[1..], n + 1);
    }
  }

  lemma {:induction false} StatusesAskNothing(pairs: seq<(Bytes, Bytes)>)
    ensures forall e :: e in Statuses(pairs) ==> !e.Resolved?
  {
    hide CString;
    if pairs != [] {
      StatusesAskNothing(Front(pairs));
    }
  }

  lemma {:induction false} RefusalsAskNothing(k: nat)
    ensures forall e :: e in Refusals(k) ==> !e.Resolved?
  {
    if k > 0 {
      RefusalsAskNothing(k - 1);
    }
  }

  lemma TranscriptAsksForTheShardKey(p: Proxy, input: Bytes)
    requires StartedWith(Greet(input).section).Some?
    ensures forall e :: e in Transcript(p, input) && e.Resolved? ==>
      e.key == ShardKey(StartedWith(Greet(input).section).value)
  {
    hide Refusals, HandshakeParameters, Statuses, Served, Requests, Greet, StartedWith, ShardKey, Word;
    var g := Greet(input);
    var params := StartedWith(g.section).value;
    RefusalsAskNothing(g.refused);
    StatusesAskNothing(HandshakeParameters(params));
    ServedAsksForItsKey(p, ShardKey(params), Requests(g.rest), 0);
  }

  /** `v` is the last value sent for the parameter, or empty when it was not sent. */
  ghost predicate SentLast(strs: seq<Bytes>, name: Bytes, v: Bytes) {
    || (v == [] && forall i :: !PairAt(strs, i, name))
    || exists i :: PairAt(strs, i, name) && strs[2 * i + 1] == v && forall j :: i < j ==> !PairAt(strs, j, name)
  }

  lemma SentIsLookedUp(strs: seq<Bytes>, name: string, v: Bytes)
    requires SentLast(strs, Raw(name), v)
    ensures Lookup(Params(strs), name) == v
  {
    hide Raw, Params;
    LastValueWins(strs, Raw(name));
    if exists i :: PairAt(strs, i, Raw(name)) {
      var i :| PairAt(strs, i, Raw(name)) && strs[2 * i + 1] == v && forall j :: i < j ==> !PairAt(strs, j, Raw(name));
    }
  }

  /** Every query of a session is routed by the application name its client sent, or by its user when that is empty. */
  lemma LookupsNameTheClient(p: Proxy, requests: seq<nat>, strs: seq<Bytes>, rest: Bytes, app: Bytes, user: Bytes)
    requires forall r :: 0 <= r < |requests| ==> requests[r] == SSL_REQUEST || requests[r] == GSS_REQUEST
    requires AllNulFree(strs) && |Joined(strs)| + 9 < 0x1_0000_0000
    requires SentLast(strs, Raw("application_name"), app) && SentLast(strs, Raw("user"), user)
    ensures var input := Hello(requests, Joined(strs) + [0]) + rest;
      forall e :: e in Transcript(p, input) && e.Resolved? ==> e.key == if app != [] then app else user
  {
    hide Transcript, Greet, Hello, Joined, Params, AllNulFree, StartedWith, Raw, SentLast, Lookup;
    StartupRoundTrip(requests, strs, rest);
    SentIsLookedUp(strs, "application_name", app);
    SentIsLookedUp(strs, "user", user);
    TranscriptAsksForTheShardKey(p, Hello(requests, Joined(strs) + [0]) + rest);
  }

  /** A statement is acknowledged exactly when it was forwarded, its rows could be sent and it did not fail. */
  lemma {:induction false} AcknowledgedExactlyWhen(o: Outcome, rows: seq<Row>)
    ensures (exists e :: e in Drained(o, rows) && Acknowledges(e)) <==>
      o.failure.None? && (o.fields == [] || forall row :: row in rows ==> row.Ok?)
  {
    hide ErrorPayload, CString, Half, Cells;
    var es := Drained(o, rows);
    if rows == [] {
      assert es[1] in es;
    } else {
      AcknowledgedExactlyWhen(o, rows[1..]);
      var rest := Drained(o, rows[1..]);
      assert forall row :: row in rows <==> row == rows[0] || row in rows[1..];
      if o.fields == [] {
        assert forall e :: e in es <==> e == Fetched || e in rest;
      } else if rows[0].Ok? {
        assert forall e :: e in es <==> e == Fetched || e == RowEvent(rows[0].value) || e in rest;
      }
    }
  }

  /** When every row decodes, the client is sent each of them, in order, between the description and the end. */
  lemma {:induction false} EveryRowIsSent(o: Outcome, rows: seq<Row>)
    requires o.fields != [] && forall row :: row in rows ==> row.Ok?
    ensures var said := SaidIn(Drained(o, rows));
      |said| == |rows| + 1 && forall i :: 0 <= i < |rows| ==> said[i] == RowEvent(rows[i].value).m
  {
    hide ErrorPayload, CString, Half, Cells;
    if rows == [] {
      var final := if o.failure.Some? then FailureEvent(o.failure.value) else Complete(o.tag);
      assert Drained(o, rows) == [Ended(o.failure)] + [final];
      SaidAppend([Ended(o.failure)], [final]);
    } else {
      var e, rest := RowEvent(rows[0].value), Drained(o, rows[1..]);
      EveryRowIsSent(o, rows[1..]);
      assert Drained(o, rows) == [Fetched, e] + rest;
      SaidAppend([Fetched, e], rest);
      assert Front([Fetched, e]) == [Fetched] && Front([Fetched]) == [];
      assert SaidIn([Fetched, e]) == [e.m];
    }
  }

  // ----- the bytes -----

  lemma BytesOfSnoc(es: seq<Event>, e: Event)
    ensures BytesOf(es + [e]) == BytesOf(es) + e.Encoded()
  {
    assert Front(es + [e]) == es;
  }

  lemma {:induction false} BytesAppend(a: seq<Event>, b: seq<Event>)
    ensures BytesOf(a + b) == BytesOf(a) + BytesOf(b)
  {
    hide BytesOf;
    if b == [] {
      NoBytes();
      assert a + b == a;
    } else {
      BytesAppend(a, Front(b));
      BytesAppendOne(a, Front(b), Last(b));
      assert Front(b) + [Last(b)] == b;
    }
  }

  lemma NoBytes()
    ensures BytesOf([]) == []
  {
  }

  lemma BytesAppendOne(a: seq<Event>, b: seq<Event>, e: Event)
    requires BytesOf(a + b) == BytesOf(a) + BytesOf(b)
    ensures BytesOf(a + (b + [e])) == BytesOf(a) + BytesOf(b + [e])
  {
    hide BytesOf, Written;
    BytesOfSnoc(a + b, e);
    BytesOfSnoc(b, e);
    assert a + (b + [e]) == a + b + [e];
  }

  lemma {:induction false} StreamSnoc(ms: seq<Msg>, m: Msg)
    ensures Stream(ms + [m]) == Stream(ms) + Written(m)
  {
    hide Written;
    if ms == [] {
      assert Stream([m]) == Written(m) + Stream([]);
    } else {
      assert (ms + [m])[1..] == ms[1..] + [m];
      StreamSnoc(ms[1..], m);
    }
  }

  lemma {:induction false} BytesAreTheMessages(es: seq<Event>)
    requires Refused !in es
    ensures BytesOf(es) == Stream(SaidIn(es))
  {
    hide Written;
    if es != [] {
      BytesAreTheMessages(Front(es));
      if Last(es).Said? {
        StreamSnoc(SaidIn(Front(es)), Last(es).m);
      } else {
        assert Last(es) in es;
        assert SaidIn(Front(es)) + [] == SaidIn(Front(es)) && BytesOf(Front(es)) + [] == BytesOf(Front(es));
      }
    }
  }

  /** After the startup's single-byte refusals, the client reads back exactly the messages that were said. */
  lemma ClientReadsWhatWasSaid(refused: nat, es: seq<Event>)
    requires Refused !in es && forall m :: m in SaidIn(es) ==> Fits(m)
    ensures var out := BytesOf(Refusals(refused) + es);
      |out| >= refused && Messages(out[refused..]) == (SaidIn(es), Eof)
  {
    BytesAppend(Refusals(refused), es);
    RefusalBytes(refused);
    BytesAreTheMessages(es);
    StreamRoundTrip(SaidIn(es));
    assert BytesOf(Refusals(refused) + es)[refused..] == BytesOf(es);
  }

  lemma {:induction false} DrainedNeverRefuses(o: Outcome, rows: seq<Row>)
    ensures Refused !in Drained(o, rows)
  {
    hide ErrorPayload, CString, Half, Cells;
    if rows != [] {
      DrainedNeverRefuses(o, rows[1..]);
    }
  }

  lemma TurnNeverRefuses(p: Proxy, key: Bytes, m: Msg, n: nat)
    ensures Refused !in Turn(p, key, m, n)
  {
    hide ErrorPayload, Raw, NoBackend, Half, Columns, Drained, QueryText, Sql.IsTransactionControl, Sql.ConsistencyFromQuery;
    var a := p.answers(n);
    if a.queried.Ok? {
      DrainedNeverRefuses(a.queried.value, a.queried.value.rows);
    }
  }

  lemma {:induction false} ServedNeverRefuses(p: Proxy, key: Bytes, requests: seq<Msg>, n: nat)
    ensures Refused !in Served(p, key, requests, n)
  {
    hide Turn;
    if requests != [] {
      TurnNeverRefuses(p, key, requests[0], n);
      ServedNeverRefuses(p, key, requests[1..], n + 1);
    }
  }

  lemma {:induction false} StatusesNeverRefuse(pairs: seq<(Bytes, Bytes)>)
    ensures Refused !in Statuses(pairs)
  {
    hide CString;
    if pairs != [] {
      StatusesNeverRefuse(Front(pairs));
    }
  }

  /** So the client of any session can read back everything that was said to it. */
  lemma ClientReadsTheSession(p: Proxy, input: Bytes)
    requires forall m :: m in SaidIn(Transcript(p, input)) ==> Fits(m)
    ensures var out, refused := BytesOf(Transcript(p, input)), Greet(input).refused;
      |out| >= refused && Messages(out[refused..]) == (SaidIn(Transcript(p, input)), Eof)
  {
    hide Refusals, HandshakeParameters, Statuses, Served, Requests, Greet, StartedWith, ShardKey, Word, Messages, BytesOf, SaidIn;
    var g := Greet(input);
    var es := Transcript(p, input)[|Refusals(g.refused)|..];
    assert Transcript(p, input) == Refusals(g.refused) + es;
    SaidAppend(Refusals(g.refused), es);
    NothingSaidInRefusals(g.refused);
    match StartedWith(g.section) {
      case None =>
      case Some(params) =>
        StatusesNeverRefuse(HandshakeParameters(params));
        ServedNeverRefuses(p, ShardKey(params), Requests(g.rest), 0);
        assert es == Handshake(params) + Served(p, ShardKey(params), Requests(g.rest), 0);
    }
    assert [] + SaidIn(es) == SaidIn(es);
    ClientReadsWhatWasSaid(g.refused, es);
  }

  lemma NothingSaidInRefusals(k: nat)
    ensures SaidIn(Refusals(k)) == []
  {
    RefusalKinds(k);
    assert |SaidIn(Refusals(k))| == |KindsIn(Refusals(k))|;
  }

  lemma {:induction false} RefusalBytes(k: nat)
    ensures |BytesOf(Refusals(k))| == k && forall b :: b in BytesOf(Refusals(k)) ==> b == 'N' as int
  {
    if k > 0 {
      RefusalBytes(k - 1);
      BytesAppend(Refusals(k - 1), [Refused, Flushed]);
      assert Front([Refused, Flushed]) == [Refused] && Front([Refused]) == [];
      assert BytesOf([Refused, Flushed]) == ['N' as int];
    }
  }
}
