/** The wire codec: framing, C strings, startup parameters and the result rows of protocol version 3. */
module Wire {
  import opened Prelude

  type Byte = b: int | 0 <= b < 256
  type Bytes = seq<Byte>


  // ----- big-endian integers; a length is cast to the field's width before it is written -----

  function Word(n: nat): (b: Bytes)
    ensures |b| == 4
  {
    var m := n % 0x1_0000_0000;
    [m / 0x100 / 0x100 / 0x100, m / 0x100 / 0x100 % 0x100, m / 0x100 % 0x100, m % 0x100]
  }

  function WordOf(b: Bytes): nat
    requires |b| == 4
  {
    ((b[0] as int * 0x100 + b[1]) * 0x100 + b[2]) * 0x100 + b[3]
  }

  function Half(n: nat): (b: Bytes)
    ensures |b| == 2
  {
    var m := n % 0x1_0000;
    [m / 0x100, m % 0x100]
  }

  function HalfOf(b: Bytes): nat
    requires |b| == 2
  {
    b[0] as int * 0x100 + b[1]
  }

  lemma WordRoundTrip(n: nat)
    ensures WordOf(Word(n)) == n % 0x1_0000_0000
  {
  }

  lemma WordOfIsInjective(b: Bytes)
    requires |b| == 4
    ensures WordOf(b) < 0x1_0000_0000 && Word(WordOf(b)) == b
  {
    var n := WordOf(b);
    assert n / 0x100 == (b[0] as int * 0x100 + b[1]) * 0x100 + b[2];
    assert n / 0x100 / 0x100 == b[0] as int * 0x100 + b[1];
  }

  lemma HalfRoundTrip(n: nat)
    ensures HalfOf(Half(n)) == n % 0x1_0000
  {
  }

  // ----- framing -----

  datatype Msg = Msg(kind: Byte, payload: Bytes)

  datatype ReadError =
    | Eof
    | UnexpectedEof
    | BadLength(length: nat)
    | TooShort(size: nat)
    | BadCode(code: nat)
    | NotTerminated

  /** What a read returned and what is left on the stream. */
  datatype Got<+T> = Got(result: Result<T, ReadError>, rest: Bytes)

  function Written(m: Msg): Bytes {
    [m.kind] + Word(4 + |m.payload|) + m.payload
  }

  function Stream(ms: seq<Msg>): Bytes {
    if ms == [] then [] else Written(ms[0]) + Stream(ms[1..])
  }

  /** Beyond this the length field wraps. */
  predicate Fits(m: Msg) {
    |m.payload| + 4 < 0x1_0000_0000
  }

  /** io.ReadFull: a stream that is already at its end gives Eof, one that ends part-way UnexpectedEof. */
  function Full(s: Bytes, n: nat): Got<Bytes> {
    if n <= |s| then Got(Ok(s[..n]), s[n..])
    else Got(Err(if s == [] then Eof else UnexpectedEof), [])
  }

  function Untyped(s: Bytes): Got<Bytes> {
    match Full(s, 4)
    case Got(Err(e), rest) => Got(Err(e), rest)
    case Got(Ok(head), rest) =>
      var length := WordOf(head);
      if length < 4 then Got(Err(BadLength(length)), rest) else Full(rest, length - 4)
  }

  function Message(s: Bytes): Got<Msg> {
    match Full(s, 1)
    case Got(Err(e), rest) => Got(Err(e), rest)
    case Got(Ok(kind), rest) =>
      match Untyped(rest)
      case Got(Err(e), rest') => Got(Err(e), rest')
      case Got(Ok(payload), rest') => Got(Ok(Msg(kind[0], payload)), rest')
  }

  /** Every message up to the first read error, and that error. */
  function Messages(s: Bytes): (seq<Msg>, ReadError) {
    match Message(s)
    case Got(Err(e), _) => ([], e)
    case Got(Ok(m), rest) =>
      MessageShrinks(s);
      var (ms, e) := Messages(rest);
      ([m] + ms, e)
  }

  lemma MessageShrinks(s: Bytes)
    requires Message(s).result.Ok?
    ensures |Message(s).rest| + 5 <= |s|
  {
  }

  lemma UntypedFrame(s: Bytes, body: Bytes, rest: Bytes)
    ensures Untyped(s) == Got(Ok(body), rest) <==> |body| + 4 < 0x1_0000_0000 && s == Word(4 + |body|) + body + rest
  {
    hide Word, WordOf;
    if |body| + 4 < 0x1_0000_0000 && s == Word(4 + |body|) + body + rest {
      assert s[..4] == Word(4 + |body|);
      WordRoundTrip(4 + |body|);
      assert s[4..] == body + rest;
    }
    if Untyped(s) == Got(Ok(body), rest) {
      WordOfIsInjective(s[..4]);
      assert s == s[..4] + (s[4..][..|body|] + s[4..][|body|..]);
    }
  }

  /** A read succeeds exactly on a stream that begins with a written message, and returns that message. */
  lemma ReadsExactlyWhatWasWritten(s: Bytes, m: Msg, rest: Bytes)
    ensures Message(s) == Got(Ok(m), rest) <==> Fits(m) && s == Written(m) + rest
  {
    if s != [] {
      UntypedFrame(s[1..], m.payload, rest);
      assert s == [s[0]] + s[1..];
      assert Written(m) + rest == [m.kind] + (Word(4 + |m.payload|) + m.payload + rest);
      hide Word, WordOf, Untyped;
      if Fits(m) && s == Written(m) + rest {
        assert s[0] == m.kind && s[1..] == Word(4 + |m.payload|) + m.payload + rest;
      }
    }
  }

  /** Framing round trip: a stream of written messages reads back as that list, then a clean end. */
  lemma {:induction false} StreamRoundTrip(ms: seq<Msg>)
    requires forall m :: m in ms ==> Fits(m)
    ensures Messages(Stream(ms)) == (ms, Eof)
  {
    if ms != [] {
      ReadsExactlyWhatWasWritten(Stream(ms), ms[0], Stream(ms[1..]));
      StreamRoundTrip(ms[1..]);
      assert [ms[0]] + ms[1..] == ms;
    }
  }

  /** A stream that stops short reads as a clean end exactly at these three places; the last drops a message. */
  lemma CleanEndExactlyWhen(s: Bytes)
    ensures Message(s).result == Err(Eof) <==>
      |s| == 0 || |s| == 1 || (|s| == 5 && WordOf(s[1..]) > 4)
  {
    if |s| >= 5 {
      assert s[1..][..4] == s[1..5];
    }
  }

  /** Network byte order, and a length that counts itself: the forms of the protocol spelled out. */
  lemma SpelledOut()
    ensures Word(0x0102_0304) == [1, 2, 3, 4] && Half(0x0102) == [1, 2]
    ensures Written(Msg('Z' as int, ['I' as int])) == ['Z' as int, 0, 0, 0, 5, 'I' as int]
  {
  }

  // ----- NUL-terminated strings -----

  predicate NulFree(s: Bytes) {
    forall i :: 0 <= i < |s| ==> s[i] != 0
  }

  predicate AllNulFree(strs: seq<Bytes>) {
    forall i :: 0 <= i < |strs| ==> NulFree(strs[i])
  }

  function CString(s: Bytes): Bytes {
    s + [0]
  }

  function Joined(strs: seq<Bytes>): Bytes {
    if strs == [] then [] else Joined(Front(strs)) + CString(Last(strs))
  }

  lemma JoinedSnoc(strs: seq<Bytes>, s: Bytes)
    ensures Joined(strs + [s]) == Joined(strs) + CString(s)
  {
    assert Front(strs + [s]) == strs;
  }

  /** The strings and the unterminated tail of a run are determined by its bytes. */
  lemma {:induction false} SplitIsUnique(a: seq<Bytes>, t: Bytes, b: seq<Bytes>, u: Bytes)
    requires AllNulFree(a) && AllNulFree(b) && NulFree(t) && NulFree(u)
    requires Joined(a) + t == Joined(b) + u
    ensures a == b && t == u
    decreases |a|
  {
    TailStart(a, t);
    TailStart(b, u);
    var run := Joined(a) + t;
    assert |t| == |u|;
    assert t == run[|run| - |t|..] && u == run[|run| - |u|..];
    assert Joined(a) == run[..|run| - |t|] && Joined(b) == run[..|run| - |u|];
    if a != [] && b != [] {
      LastCString(a);
      LastCString(b);
      var j := Joined(a);
      assert Joined(Front(a)) + Last(a) == j[..|j| - 1] == Joined(Front(b)) + Last(b);
      SplitIsUnique(Front(a), Last(a), Front(b), Last(b));
      assert a == Front(a) + [Last(a)] && b == Front(b) + [Last(b)];
    }
  }

  lemma LastCString(a: seq<Bytes>)
    requires a != []
    ensures Joined(a) == (Joined(Front(a)) + Last(a)) + [0]
  {
  }

  /** Where the NUL-free tail of a run starts: after its last NUL. */
  lemma TailStart(a: seq<Bytes>, t: Bytes)
    requires NulFree(t)
    ensures var run := Joined(a) + t;
      && (forall i :: |run| - |t| <= i < |run| ==> run[i] != 0)
      && (|t| < |run| ==> run[|run| - |t| - 1] == 0)
      && (|t| == |run| <==> a == [])
  {
    if a != [] {
      LastCString(a);
    }
  }

  /** `strs` are the strings of `body`: the run before its final zero, less any unterminated tail. */
  ghost predicate SplitsInto(body: Bytes, strs: seq<Bytes>) {
    && body != [] && Last(body) == 0 && AllNulFree(strs)
    && exists tail :: NulFree(tail) && Front(body) == Joined(strs) + tail
  }

  /** The same reading computed: the complete strings of a run and what follows its last NUL. */
  function Strings(run: Bytes): (seq<Bytes>, Bytes) {
    if run == [] then ([], [])
    else
      var (strs, tail) := Strings(Front(run));
      if Last(run) == 0 then (strs + [tail], []) else (strs, tail + [Last(run)])
  }

  lemma {:induction false} StringsReadTheRun(run: Bytes)
    ensures var (strs, tail) := Strings(run); AllNulFree(strs) && NulFree(tail) && run == Joined(strs) + tail
  {
    if run != [] {
      StringsReadTheRun(Front(run));
      var (strs, tail) := Strings(Front(run));
      JoinedSnoc(strs, tail);
      assert run == Front(run) + [Last(run)];
    }
  }

  lemma SplitsIntoItsStrings(body: Bytes, strs: seq<Bytes>)
    ensures SplitsInto(body, strs) <==> body != [] && Last(body) == 0 && strs == Strings(Front(body)).0
  {
    if body != [] && Last(body) == 0 {
      StringsReadTheRun(Front(body));
      var (read, rest) := Strings(Front(body));
      if SplitsInto(body, strs) {
        var tail :| NulFree(tail) && Front(body) == Joined(strs) + tail;
        SplitIsUnique(strs, tail, read, rest);
      }
    }
  }

  method SplitCStrings(body: Bytes) returns (r: Result<seq<Bytes>, ReadError>)
    ensures r.Err? <==> body == [] || Last(body) != 0
    ensures r.Err? ==> r.error == NotTerminated
    ensures r.Ok? ==> SplitsInto(body, r.value)
  {
    if body == [] || body[|body| - 1] != 0 {
      return Err(NotTerminated);
    }
    var run := body[..|body| - 1];
    if run == [] {
      assert Front(body) == Joined([]) + [];
      return Ok([]);
    }
    var out: seq<Bytes> := [];
    var start := 0;
    for i := 0 to |run|
      invariant 0 <= start <= i
      invariant run[..start] == Joined(out)
      invariant AllNulFree(out)
      invariant NulFree(run[start..i])
    {
      if run[i] == 0 {
        JoinedSnoc(out, run[start..i]);
        assert run[..i + 1] == run[..start] + (run[start..i] + [0]);
        out := out + [run[start..i]];
        start := i + 1;
      } else {
        assert run[start..i + 1] == run[start..i] + [run[i]];
      }
    }
    assert run[start..] == run[start..|run|];
    assert run == Joined(out) + run[start..];
    return Ok(out);
  }

  /** Splitting inverts joining, empty strings included: the strings a run was built from are its only reading. */
  lemma SplitInvertsJoin(strs: seq<Bytes>, read: seq<Bytes>)
    requires AllNulFree(strs)
    ensures SplitsInto(Joined(strs) + [0], read) <==> read == strs
  {
    var body := Joined(strs) + [0];
    assert Front(body) == Joined(strs) + [];
    if SplitsInto(body, read) {
      var tail :| NulFree(tail) && Front(body) == Joined(read) + tail;
      SplitIsUnique(strs, [], read, tail);
    }
  }

  /** Bytes are lost in splitting exactly when the run does not itself end in a NUL. */
  lemma TailIsDroppedExactlyWhen(body: Bytes, strs: seq<Bytes>)
    requires SplitsInto(body, strs)
    ensures Front(body) != Joined(strs) <==> |body| > 1 && body[|body| - 2] != 0
  {
    var run := Front(body);
    var tail :| NulFree(tail) && run == Joined(strs) + tail;
    TailStart(strs, tail);
    if run != [] {
      assert run[|run| - 1] == body[|body| - 2];
    }
    if tail == [] {
      assert Joined(strs) + tail == Joined(strs);
    } else {
      assert |run| != |Joined(strs)|;
    }
  }

  // ----- startup parameters -----

  /** Pairs in order, a later value for a key replacing an earlier one, an odd string at the end ignored. */
  function Params(strs: seq<Bytes>): map<Bytes, Bytes> {
    if |strs| < 2 then map[]
    else if |strs| % 2 == 1 then Params(Front(strs))
    else Params(Front(Front(strs)))[strs[|strs| - 2] := strs[|strs| - 1]]
  }

  method CollectParams(strs: seq<Bytes>) returns (params: map<Bytes, Bytes>)
    ensures params == Params(strs)
  {
    params := map[];
    var i := 0;
    while i + 1 < |strs|
      invariant 0 <= i <= |strs| && i % 2 == 0
      invariant params == Params(strs[..i])
    {
      assert Front(Front(strs[..i + 2])) == strs[..i];
      params := params[strs[i] := strs[i + 1]];
      i := i + 2;
    }
    assert strs[..|strs|] == strs;
    if i < |strs| {
      assert Front(strs) == strs[..i];
    }
  }

  method ParseStartupParams(body: Bytes) returns (r: Result<map<Bytes, Bytes>, ReadError>)
    ensures r.Err? <==> body == [] || Last(body) != 0
    ensures r.Err? ==> r.error == NotTerminated
    ensures r.Ok? ==> exists strs :: SplitsInto(body, strs) && r.value == Params(strs)
  {
    var split := SplitCStrings(body);
    match split {
      case Err(e) => return Err(e);
      case Ok(strs) =>
        var params := CollectParams(strs);
        return Ok(params);
    }
  }

  /** A parameter's value is the one sent last for its key; no other key is defined. */
  lemma {:induction false} LastValueWins(strs: seq<Bytes>, k: Bytes)
    ensures k in Params(strs) <==> exists i :: PairAt(strs, i, k)
    ensures forall i :: PairAt(strs, i, k) && (forall j :: i < j ==> !PairAt(strs, j, k)) ==>
      Params(strs)[k] == strs[2 * i + 1]
  {
    if |strs| >= 2 {
      var n := |strs| / 2;
      var shorter := if |strs| % 2 == 1 then Front(strs) else Front(Front(strs));
      LastValueWins(shorter, k);
      forall i ensures PairAt(shorter, i, k) <==> PairAt(strs, i, k) && 2 * i + 1 < |shorter| {}
      if |strs| % 2 == 0 && strs[|strs| - 2] == k {
        assert PairAt(strs, n - 1, k);
      }
      if k in Params(shorter) {
        var i :| PairAt(shorter, i, k);
        assert PairAt(strs, i, k);
      }
    }
  }

  predicate PairAt(strs: seq<Bytes>, i: int, k: Bytes) {
    0 <= i && 2 * i + 1 < |strs| && strs[2 * i] == k
  }

  // ----- startup -----

  const SSL_REQUEST := 80877103
  const GSS_REQUEST := 80877104
  const PROTOCOL_3 := 196608

  /** Startup: how many encryption requests were refused, and the parameters' section or the error. */
  datatype Greeting = Greeting(refused: nat, section: Result<Bytes, ReadError>, rest: Bytes)

  function Greet(s: Bytes): Greeting {
    match Untyped(s)
    case Got(Err(e), rest) => Greeting(0, Err(e), rest)
    case Got(Ok(body), rest) =>
      if |body| < 4 then Greeting(0, Err(TooShort(|body|)), rest)
      else
        var code := WordOf(body[..4]);
        if code == SSL_REQUEST || code == GSS_REQUEST then
          UntypedShrinks(s);
          var g := Greet(rest);
          g.(refused := g.refused + 1)
        else if code == PROTOCOL_3 then Greeting(0, Ok(body[4..]), rest)
        else Greeting(0, Err(BadCode(code)), rest)
  }

  lemma UntypedShrinks(s: Bytes)
    requires Untyped(s).result.Ok?
    ensures |Untyped(s).rest| + 4 <= |s|
  {
  }

  function StartupMessage(code: nat, section: Bytes): Bytes {
    Word(8 + |section|) + Word(code) + section
  }

  /** What a client sends: encryption requests, then the real startup message. */
  function Hello(requests: seq<nat>, section: Bytes): Bytes {
    if requests == [] then StartupMessage(PROTOCOL_3, section)
    else StartupMessage(requests[0], []) + Hello(requests[1..], section)
  }

  lemma StartupBody(code: nat, section: Bytes, rest: Bytes)
    requires code < 0x1_0000_0000 && |section| + 8 < 0x1_0000_0000
    ensures Untyped(StartupMessage(code, section) + rest) == Got(Ok(Word(code) + section), rest)
    ensures WordOf((Word(code) + section)[..4]) == code && (Word(code) + section)[4..] == section
  {
    var body := Word(code) + section;
    assert body[..4] == Word(code);
    WordRoundTrip(code);
    UntypedFrame(StartupMessage(code, section) + rest, body, rest);
    hide Word, WordOf, Untyped;
    assert Word(8 + |section|) + Word(code) + section + rest == Word(4 + |body|) + body + rest;
  }

  /** Every encryption request is refused once, and then the parameters' section is handed on intact. */
  lemma {:induction false} GreetingRoundTrip(requests: seq<nat>, section: Bytes, rest: Bytes)
    requires forall i :: 0 <= i < |requests| ==> requests[i] == SSL_REQUEST || requests[i] == GSS_REQUEST
    requires |section| + 8 < 0x1_0000_0000
    ensures Greet(Hello(requests, section) + rest) == Greeting(|requests|, Ok(section), rest)
  {
    hide Word, WordOf, Untyped, StartupMessage;
    if requests == [] {
      StartupBody(PROTOCOL_3, section, rest);
    } else {
      var more := Hello(requests[1..], section) + rest;
      StartupBody(requests[0], [], more);
      assert Hello(requests, section) + rest == StartupMessage(requests[0], []) + more;
      GreetingRoundTrip(requests[1..], section, rest);
    }
  }

  lemma CodeBytes()
    ensures Word(8) == [0, 0, 0, 8] && Word(9) == [0, 0, 0, 9]
    ensures Word(SSL_REQUEST) == [4, 210, 22, 47] && Word(GSS_REQUEST) == [4, 210, 22, 48] && Word(PROTOCOL_3) == [0, 3, 0, 0]
  {
  }

  /** The startup codes spelled out: SSLRequest, GSSENCRequest, and version 3.0 without parameters. */
  lemma StartupSpelledOut(rest: Bytes)
    ensures Greet([0, 0, 0, 8, 4, 210, 22, 47] + rest) == Greet(rest).(refused := Greet(rest).refused + 1)
    ensures Greet([0, 0, 0, 8, 4, 210, 22, 48] + rest) == Greet(rest).(refused := Greet(rest).refused + 1)
    ensures Greet([0, 0, 0, 9, 0, 3, 0, 0, 0] + rest) == Greeting(0, Ok([0]), rest)
  {
    CodeBytes();
    hide Word, WordOf, Untyped;
    StartupBody(SSL_REQUEST, [], rest);
    StartupBody(GSS_REQUEST, [], rest);
    StartupBody(PROTOCOL_3, [0], rest);
    assert [0, 0, 0, 8, 4, 210, 22, 47] == StartupMessage(SSL_REQUEST, []);
    assert [0, 0, 0, 8, 4, 210, 22, 48] == StartupMessage(GSS_REQUEST, []);
    assert [0, 0, 0, 9, 0, 3, 0, 0, 0] == StartupMessage(PROTOCOL_3, [0]);
  }
}
