/** What the proxy reads off a query's text: its first keyword, and the consistency hint in a leading comment. */
module Sql {
  import opened Prelude
  import opened Ring
  import opened Router

  // ----- searching -----

  function Find(s: string, pat: string): (i: int)
    requires pat != ""
    ensures -1 <= i && (i >= 0 ==> i + |pat| <= |s|)
  {
    if |s| < |pat| then -1
    else if pat <= s then 0
    else
      var r := Find(s[1..], pat);
      if r < 0 then -1 else r + 1
  }

  /** `Find` returns the first occurrence, and fails only when there is none. */
  lemma {:induction false} FindIsFirst(s: string, pat: string)
    requires pat != ""
    ensures forall k :: 0 <= k <= |s| - |pat| && pat <= s[k..] ==> 0 <= Find(s, pat) <= k
    ensures Find(s, pat) >= 0 ==> pat <= s[Find(s, pat)..]
  {
    if |s| >= |pat| && !(pat <= s) {
      FindIsFirst(s[1..], pat);
      forall k | 0 <= k <= |s| - |pat| && pat <= s[k..] ensures 0 <= Find(s, pat) <= k {
        assert s[k..] == if k == 0 then s else s[1..][k - 1..];
      }
      var r := Find(s[1..], pat);
      assert r >= 0 ==> s[1..][r..] == s[r + 1..];
    } else if |s| >= |pat| {
      assert s[0..] == s;
    }
  }

  lemma FindAt(s: string, pat: string, i: nat)
    requires pat != "" && i + |pat| <= |s| && pat <= s[i..]
    requires forall k :: 0 <= k < i ==> !(pat <= s[k..])
    ensures Find(s, pat) == i
  {
    FindIsFirst(s, pat);
  }

  // ----- the first keyword -----

  predicate IsBlank(c: char) {
    c in " \t\r\n"
  }

  predicate IsLetter(c: char) {
    'a' <= c <= 'z' || 'A' <= c <= 'Z'
  }

  function TrimBlanks(s: string): (r: string)
    ensures |r| <= |s|
  {
    if s != "" && IsBlank(s[0]) then TrimBlanks(s[1..]) else s
  }

  function WordLength(s: string): (n: nat)
    ensures n <= |s|
  {
    if s != "" && IsLetter(s[0]) then 1 + WordLength(s[1..]) else 0
  }

  function UpperChar(c: char): char {
    if 'a' <= c <= 'z' then c - 'a' + 'A' else c
  }

  function Upper(s: string): string {
    seq(|s|, i requires 0 <= i < |s| => UpperChar(s[i]))
  }

  function LeadingKeyword(query: string): string
    decreases |query|
  {
    var s := TrimBlanks(query);
    if "--" <= s then
      var nl := Find(s, "\n");
      if nl < 0 then "" else LeadingKeyword(s[nl + 1..])
    else if "/*" <= s then
      var end := Find(s, "*/");
      if end < 0 then "" else LeadingKeyword(s[end + 2..])
    else Upper(s[..WordLength(s)])
  }

  const TRANSACTION_KEYWORDS := {"BEGIN", "START", "COMMIT", "END", "ROLLBACK", "ABORT", "SAVEPOINT", "RELEASE"}

  predicate IsTransactionControl(query: string) {
    LeadingKeyword(query) in TRANSACTION_KEYWORDS
  }

  /** The scan as the proxy runs it: each round drops at least a comment's opener, so it always ends. */
  method ScanKeyword(query: string) returns (keyword: string)
    ensures keyword == LeadingKeyword(query)
  {
    var s := query;
    while true
      invariant LeadingKeyword(s) == LeadingKeyword(query)
      decreases |s|
    {
      ghost var before := s;
      s := TrimBlanks(s);
      TrimmedKeyword(before);
      if "--" <= s {
        var nl := Find(s, "\n");
        if nl < 0 {
          return "";
        }
        s := s[nl + 1..];
      } else if "/*" <= s {
        var end := Find(s, "*/");
        if end < 0 {
          return "";
        }
        s := s[end + 2..];
      } else {
        var end := 0;
        while end < |s| && IsLetter(s[end])
          invariant end <= WordLength(s) && WordLength(s) == end + WordLength(s[end..])
        {
          assert s[end..][1..] == s[end + 1..];
          end := end + 1;
        }
        return Upper(s[..end]);
      }
    }
  }

  lemma {:induction false} TrimIsIdempotent(s: string)
    ensures TrimBlanks(TrimBlanks(s)) == TrimBlanks(s)
  {
    if s != "" && IsBlank(s[0]) {
      TrimIsIdempotent(s[1..]);
    }
  }

  lemma TrimmedKeyword(s: string)
    ensures LeadingKeyword(TrimBlanks(s)) == LeadingKeyword(s)
  {
    TrimIsIdempotent(s);
  }

  // ----- comments are transparent -----

  datatype Trivia = Space(c: char) | LineComment(body: string) | BlockComment(body: string) {
    function Text(): string {
      match this
      case Space(c) => [c]
      case LineComment(body) => "--" + body + "\n"
      case BlockComment(body) => "/*" + body + "*/"
    }

    /** A block comment's body must not close it early: the search can match the `*` of the opener. */
    predicate WellFormed() {
      match this
      case Space(c) => IsBlank(c)
      case LineComment(body) => '\n' !in body
      case BlockComment(body) => ClosesOnlyAtItsEnd(body)
    }
  }

  predicate ClosesOnlyAtItsEnd(body: string) {
    Find(body, "*/") < 0 && !("/" <= body)
  }

  function Text(ts: seq<Trivia>): string {
    if ts == [] then "" else ts[0].Text() + Text(ts[1..])
  }

  lemma CloseAt(s: string, k: nat)
    requires k <= |s|
    ensures "*/" <= s[k..] <==> k + 1 < |s| && s[k] == '*' && s[k + 1] == '/'
  {
  }

  /** No close inside the body, and none overlapping the opener or the body's end. */
  lemma NoEarlyClose(body: string, q: string, k: nat)
    requires ClosesOnlyAtItsEnd(body) && k < |body| + 2
    ensures var s := "/*" + body + "*/" + q; !("*/" <= s[k..])
  {
    var s := "/*" + body + "*/" + q;
    CloseAt(s, k);
    if k >= 2 {
      FindIsFirst(body, "*/");
      CloseAt(body, k - 2);
      assert s[k] == body[k - 2];
      assert s[k + 1] == if k == |body| + 1 then '*' else body[k - 1];
    } else {
      assert s[k + 1] == if k == 0 then '*' else if body == "" then '*' else body[0];
    }
  }

  lemma EarlyClose(body: string, q: string)
    requires !ClosesOnlyAtItsEnd(body)
    ensures var s := "/*" + body + "*/" + q; exists k :: 0 <= k < |body| + 2 && "*/" <= s[k..]
  {
    var s := "/*" + body + "*/" + q;
    if "/" <= body {
      assert s[2] == body[0];
      CloseAt(s, 1);
    } else {
      var k := Find(body, "*/");
      FindIsFirst(body, "*/");
      CloseAt(body, k);
      assert s[k + 2] == body[k] && s[k + 3] == body[k + 1];
      CloseAt(s, k + 2);
    }
  }

  /** The close the scan finds is the comment's own exactly when its body meets the condition. */
  lemma CloseIsItsOwnExactlyWhen(body: string, q: string)
    ensures Find("/*" + body + "*/" + q, "*/") == |body| + 2 <==> ClosesOnlyAtItsEnd(body)
  {
    var s := "/*" + body + "*/" + q;
    assert s[|body| + 2..] == "*/" + q;
    FindIsFirst(s, "*/");
    if ClosesOnlyAtItsEnd(body) {
      forall k | 0 <= k < |body| + 2 ensures !("*/" <= s[k..]) {
        NoEarlyClose(body, q, k);
      }
      FindAt(s, "*/", |body| + 2);
    } else {
      EarlyClose(body, q);
    }
  }

  lemma SkipsLineComment(s: string, nl: nat)
    requires "--" <= s && Find(s, "\n") == nl
    ensures LeadingKeyword(s) == LeadingKeyword(s[nl + 1..])
  {
    hide Find;
    assert s[0] == '-';
  }

  lemma SkipsBlockComment(s: string, end: nat)
    requires "/*" <= s && Find(s, "*/") == end
    ensures LeadingKeyword(s) == LeadingKeyword(s[end + 2..])
  {
    hide Find;
    assert s[0] == '/';
  }

  lemma LineCommentEnds(body: string, q: string)
    requires '\n' !in body
    ensures Find("--" + body + "\n" + q, "\n") == |body| + 2
  {
    var s, nl := "--" + body + "\n" + q, 2 + |body|;
    assert s[nl..] == "\n" + q;
    forall k | 0 <= k < nl ensures !("\n" <= s[k..]) {
      assert s[k] == if k < 2 then '-' else body[k - 2];
    }
    FindAt(s, "\n", nl);
  }

  lemma OneTriviumIsTransparent(t: Trivia, q: string)
    requires t.WellFormed()
    ensures LeadingKeyword(t.Text() + q) == LeadingKeyword(q)
  {
    var s := t.Text() + q;
    match t {
      case Space(c) =>
        assert s[1..] == q;
        TrimmedKeyword(s);
        TrimmedKeyword(q);
      case LineComment(body) =>
        hide LeadingKeyword, Find;
        LineCommentEnds(body, q);
        SkipsLineComment(s, |body| + 2);
        assert s[|body| + 3..] == q;
      case BlockComment(body) =>
        hide LeadingKeyword, Find, ClosesOnlyAtItsEnd;
        CloseIsItsOwnExactlyWhen(body, q);
        assert s == "/*" + body + "*/" + q;
        SkipsBlockComment(s, |body| + 2);
        assert s[|body| + 4..] == q;
    }
  }

  lemma {:induction false} TriviaKeepTheKeyword(ts: seq<Trivia>, q: string)
    requires forall t :: t in ts ==> t.WellFormed()
    ensures LeadingKeyword(Text(ts) + q) == LeadingKeyword(q)
  {
    if ts == [] {
      hide LeadingKeyword;
      assert Text(ts) + q == q;
    } else {
      FirstTrivium(ts, q);
      hide LeadingKeyword, Text, Trivia.WellFormed, Trivia.Text;
      OneTriviumIsTransparent(ts[0], Text(ts[1..]) + q);
      TriviaKeepTheKeyword(ts[1..], q);
    }
  }

  lemma FirstTrivium(ts: seq<Trivia>, q: string)
    requires ts != []
    ensures Text(ts) + q == ts[0].Text() + (Text(ts[1..]) + q)
  {
    hide Trivia.Text;
  }

  /** Any run of blanks and comments before a query changes neither its keyword nor its verdict. */
  lemma TriviaIsTransparent(ts: seq<Trivia>, q: string)
    requires forall t :: t in ts ==> t.WellFormed()
    ensures LeadingKeyword(Text(ts) + q) == LeadingKeyword(q)
    ensures IsTransactionControl(Text(ts) + q) <==> IsTransactionControl(q)
  {
    hide LeadingKeyword, Text, Trivia.WellFormed;
    TriviaKeepTheKeyword(ts, q);
  }

  /** The scan passes over the whole of `s`: blanks and comments that it finds closed, and nothing else. */
  predicate Skips(s: string)
    decreases |s|
  {
    var t := TrimBlanks(s);
    if t == "" then true
    else if "--" <= t then
      var nl := Find(t, "\n");
      nl >= 0 && Skips(t[nl + 1..])
    else if "/*" <= t then
      var end := Find(t, "*/");
      end >= 0 && Skips(t[end + 2..])
    else false
  }

  /** Prefixing `s` changes no query's keyword. */
  ghost predicate KeepsKeywords(s: string) {
    forall q: string :: LeadingKeyword(s + q) == LeadingKeyword(q)
  }

  /** Prefixing `s` changes no query's verdict. */
  ghost predicate KeepsVerdicts(s: string) {
    forall q: string :: IsTransactionControl(s + q) <==> IsTransactionControl(q)
  }

  lemma {:induction false} TrimAppend(s: string, q: string)
    ensures TrimBlanks(s + q) == if TrimBlanks(s) == "" then TrimBlanks(q) else TrimBlanks(s) + q
  {
    if s == "" {
      assert s + q == q;
    } else {
      assert (s + q)[1..] == s[1..] + q;
      TrimAppend(s[1..], q);
    }
  }

  lemma OccursAlike(s: string, pat: string, q: string, k: nat)
    requires k + |pat| <= |s|
    ensures pat <= (s + q)[k..] <==> pat <= s[k..]
  {
    assert (s + q)[k..] == s[k..] + q;
    assert (s + q)[k..][..|pat|] == s[k..][..|pat|];
  }

  /** What follows does not move the first occurrence. */
  lemma FindAppend(s: string, pat: string, q: string)
    requires pat != "" && Find(s, pat) >= 0
    ensures Find(s + q, pat) == Find(s, pat)
  {
    hide Find;
    var i := Find(s, pat);
    FindIsFirst(s, pat);
    forall k | 0 <= k <= i ensures pat <= (s + q)[k..] <==> k == i {
      OccursAlike(s, pat, q, k);
    }
    FindAt(s + q, pat, i);
  }

  /** The rest of `s` once its leading blanks and the comment after them are passed; None when it has none closed. */
  function PastComment(s: string): (r: Option<string>)
    ensures r.Some? ==> |r.value| < |s|
  {
    var t := TrimBlanks(s);
    if "--" <= t then if Find(t, "\n") >= 0 then Some(t[Find(t, "\n") + 1..]) else None
    else if "/*" <= t && Find(t, "*/") >= 0 then Some(t[Find(t, "*/") + 2..])
    else None
  }

  lemma PastCommentKeeps(s: string, q: string)
    requires PastComment(s).Some?
    ensures LeadingKeyword(s + q) == LeadingKeyword(PastComment(s).value + q)
    ensures Skips(s) == Skips(PastComment(s).value)
  {
    hide LeadingKeyword;
    var t := TrimBlanks(s);
    TrimAppend(s, q);
    TrimmedKeyword(s + q);
    if "--" <= t {
      var nl := Find(t, "\n");
      FindAppend(t, "\n", q);
      SkipsLineComment(t + q, nl);
      assert (t + q)[nl + 1..] == t[nl + 1..] + q;
    } else {
      var end := Find(t, "*/");
      FindAppend(t, "*/", q);
      SkipsBlockComment(t + q, end);
      assert (t + q)[end + 2..] == t[end + 2..] + q;
    }
  }

  lemma {:induction false} SkippedIsTransparent(s: string, q: string)
    requires Skips(s)
    ensures LeadingKeyword(s + q) == LeadingKeyword(q)
    decreases |s|
  {
    hide LeadingKeyword;
    if TrimBlanks(s) == "" {
      TrimAppend(s, q);
      TrimmedKeyword(s + q);
      TrimmedKeyword(q);
    } else {
      PastCommentKeeps(s, q);
      SkippedIsTransparent(PastComment(s).value, q);
    }
  }

  const BEGIN := "BEGIN"

  lemma NothingNewAt(t: string, pat: string, k: nat)
    requires (pat == "\n" || pat == "*/") && k + |pat| <= |t + BEGIN|
    requires k + |pat| <= |t| ==> !(pat <= t[k..])
    ensures !(pat <= (t + BEGIN)[k..])
  {
    var u, last := t + BEGIN, k + |pat| - 1;
    if last < |t| {
      assert t[k..][..|pat|] == u[k..][..|pat|];
    } else {
      NoMarkInBegin(last - |t|);
      hide BEGIN;
      assert u[k..][|pat| - 1] == u[last] == BEGIN[last - |t|];
    }
  }

  lemma NoMarkInBegin(i: nat)
    requires i < |BEGIN|
    ensures BEGIN[i] != '/' && BEGIN[i] != '\n'
  {
  }

  lemma StaysUnfound(t: string, pat: string)
    requires (pat == "\n" || pat == "*/") && Find(t, pat) < 0
    ensures Find(t + BEGIN, pat) < 0
  {
    hide BEGIN, Find;
    var u := t + BEGIN;
    FindIsFirst(t, pat);
    FindIsFirst(u, pat);
    forall k | 0 <= k <= |u| - |pat| ensures !(pat <= u[k..]) {
      NothingNewAt(t, pat, k);
    }
  }

  lemma OpenCommentSwallows(s: string)
    requires PastComment(s).None?
    requires var t := TrimBlanks(s); "--" <= t || "/*" <= t
    ensures LeadingKeyword(s + BEGIN) == ""
  {
    hide LeadingKeyword;
    var t := TrimBlanks(s);
    TrimAppend(s, BEGIN);
    TrimmedKeyword(s + BEGIN);
    StaysUnfound(t, if "--" <= t then "\n" else "*/");
    hide Find, BEGIN;
    OpenCommentIsEmpty(t + BEGIN);
  }

  lemma OpenCommentIsEmpty(u: string)
    requires if "--" <= u then Find(u, "\n") < 0 else "/*" <= u && Find(u, "*/") < 0
    ensures LeadingKeyword(u) == ""
  {
    hide Find;
    assert u[0] == '-' || u[0] == '/';
  }

  lemma WordOfText(u: string)
    requires u != "" && !IsBlank(u[0]) && !("--" <= u) && !("/*" <= u)
    ensures LeadingKeyword(u) == Upper(u[..WordLength(u)])
  {
    hide Upper;
  }

  /** A scan that stops at a word or another character reads the word that starts there. */
  lemma StopsAtWord(s: string, q: string)
    requires q == "" || q == BEGIN
    requires var t := TrimBlanks(s); t != "" && !("--" <= t) && !("/*" <= t)
    ensures var u := TrimBlanks(s) + q; LeadingKeyword(s + q) == Upper(u[..WordLength(u)])
  {
    hide LeadingKeyword, Upper;
    var t := TrimBlanks(s);
    var u := t + q;
    TrimAppend(s, q);
    TrimmedKeyword(s + q);
    TrimmedStart(s);
    assert u[0] == t[0];
    assert |u| >= 2 && |t| == 1 ==> u[1] == 'B';
    assert |t| >= 2 ==> u[1] == t[1];
    WordOfText(u);
  }

  lemma {:induction false} TrimmedStart(s: string)
    ensures TrimBlanks(s) != "" ==> !IsBlank(TrimBlanks(s)[0])
  {
    if s != "" && IsBlank(s[0]) {
      TrimmedStart(s[1..]);
    }
  }

  lemma {:induction false} WordLengthAppend(t: string, q: string)
    ensures WordLength(t) < |t| ==> WordLength(t + q) == WordLength(t)
    ensures WordLength(t) == |t| ==> WordLength(t + q) == |t| + WordLength(q)
  {
    if t == "" {
      assert t + q == q;
    } else {
      assert (t + q)[1..] == t[1..] + q;
      WordLengthAppend(t[1..], q);
    }
  }

  lemma BeginIsAWord()
    ensures WordLength(BEGIN) == 5 && |BEGIN| == 5 && BEGIN in TRANSACTION_KEYWORDS && Upper(BEGIN) == BEGIN
  {
    assert forall c :: c in BEGIN ==> IsLetter(c);
    WordLengthOf(BEGIN, "");
    assert BEGIN + "" == BEGIN;
  }

  lemma NoKeywordGrowsOnBegin(w: string)
    requires |w| >= 6 && w[|w| - 1] == 'N'
    ensures w !in TRANSACTION_KEYWORDS
  {
    assert forall k :: k in TRANSACTION_KEYWORDS && |k| >= 6 ==> k[|k| - 1] != 'N';
  }

  /** The scan stops at `t`, whose first `n` characters are letters. */
  lemma PartWordShows(s: string, t: string, n: nat)
    requires n < |t|
    requires LeadingKeyword(s + "") == Upper((t + "")[..n]) && LeadingKeyword(s + BEGIN) == Upper((t + BEGIN)[..n])
    ensures LeadingKeyword(s + "") != "" || LeadingKeyword(s + BEGIN) != BEGIN
    ensures IsTransactionControl(s + "") || !IsTransactionControl(s + BEGIN)
  {
    BeginIsAWord();
    hide LeadingKeyword, BEGIN, TRANSACTION_KEYWORDS, Upper;
    assert (t + "")[..n] == t[..n] == (t + BEGIN)[..n];
  }

  lemma WholeWordShows(s: string, t: string)
    requires t != "" && LeadingKeyword(s + "") == Upper(t) && LeadingKeyword(s + BEGIN) == Upper(t + BEGIN)
    ensures LeadingKeyword(s + "") != "" && !IsTransactionControl(s + BEGIN)
  {
    hide LeadingKeyword, TRANSACTION_KEYWORDS;
    var u := t + BEGIN;
    assert u[|u| - 1] == BEGIN[4] == 'N';
    hide BEGIN;
    NoKeywordGrowsOnBegin(Upper(u));
  }

  lemma WordShows(s: string)
    requires var t := TrimBlanks(s); t != "" && !("--" <= t) && !("/*" <= t)
    ensures LeadingKeyword(s + "") != "" || LeadingKeyword(s + BEGIN) != BEGIN
    ensures IsTransactionControl(s + "") || !IsTransactionControl(s + BEGIN)
  {
    var t := TrimBlanks(s);
    StopsAtWord(s, "");
    StopsAtWord(s, BEGIN);
    WordLengthAppend(t, BEGIN);
    WordLengthAppend(t, "");
    BeginIsAWord();
    NoWord();
    hide LeadingKeyword, IsTransactionControl, WordLength, TrimBlanks, BEGIN, TRANSACTION_KEYWORDS, Upper;
    var n := WordLength(t);
    if n < |t| {
      PartWordShows(s, t, n);
    } else {
      assert (t + "")[..n] == t && (t + BEGIN)[..n + 5] == t + BEGIN;
      WholeWordShows(s, t);
    }
  }

  lemma NoWord()
    ensures WordLength("") == 0
  {
  }

  lemma UnskippedShowsNow(s: string)
    requires !Skips(s) && PastComment(s).None?
    ensures LeadingKeyword(s + "") != "" || LeadingKeyword(s + BEGIN) != BEGIN
    ensures IsTransactionControl(s + "") || !IsTransactionControl(s + BEGIN)
  {
    hide LeadingKeyword, Find;
    var t := TrimBlanks(s);
    if "--" <= t || "/*" <= t {
      OpenCommentSwallows(s);
      ShortWordsAreNotTransactionControl(s + BEGIN);
    } else {
      WordShows(s);
    }
  }

  /** A text the scan does not pass over shows on the empty query, or hides BEGIN. */
  lemma {:induction false} UnskippedShows(s: string)
    requires !Skips(s)
    ensures LeadingKeyword(s + "") != "" || LeadingKeyword(s + BEGIN) != BEGIN
    ensures IsTransactionControl(s + "") || !IsTransactionControl(s + BEGIN)
    decreases |s|
  {
    if PastComment(s).Some? {
      hide LeadingKeyword, Skips, PastComment;
      PastCommentKeeps(s, "");
      PastCommentKeeps(s, BEGIN);
      UnskippedShows(PastComment(s).value);
    } else {
      UnskippedShowsNow(s);
    }
  }

  /**
   * The exact condition, for any text before any query: keywords, and with them verdicts, are kept if and only if
   * the scan passes over the whole of it.
   */
  lemma KeptExactlyWhenSkipped(s: string)
    ensures KeepsKeywords(s) <==> Skips(s)
    ensures KeepsVerdicts(s) <==> Skips(s)
  {
    hide LeadingKeyword, Skips, BEGIN;
    if Skips(s) {
      forall q: string ensures LeadingKeyword(s + q) == LeadingKeyword(q) {
        SkippedIsTransparent(s, q);
      }
    } else {
      UnskippedShows(s);
      PlainVerdicts();
    }
  }

  /** The two queries that tell. */
  lemma PlainVerdicts()
    ensures LeadingKeyword("") == "" && LeadingKeyword(BEGIN) == BEGIN
    ensures !IsTransactionControl("") && IsTransactionControl(BEGIN)
  {
    BeginIsBegin();
    ShortWordsAreNotTransactionControl("");
    BeginIsAWord();
  }

  /** A comment that closes only at its end is passed over. */
  lemma WellFormedIsSkipped(t: Trivia)
    requires t.WellFormed()
    ensures Skips(t.Text())
  {
    hide LeadingKeyword;
    forall q: string ensures LeadingKeyword(t.Text() + q) == LeadingKeyword(q) {
      OneTriviumIsTransparent(t, q);
    }
    KeptExactlyWhenSkipped(t.Text());
  }

  /** The converse fails: this comment closes too early, and what it leaves is passed over all the same. */
  lemma IllFormedYetSkipped()
    ensures !BlockComment("//*").WellFormed() && Skips(BlockComment("//*").Text())
  {
    hide Skips;
    assert BlockComment("//*").Text() == "/*/" + "/**/" && BlockComment("").Text() == "/**/";
    SlashSkips("/**/");
    EmptyCommentIsWellFormed();
    WellFormedIsSkipped(BlockComment(""));
  }

  lemma SlashSkips(rest: string)
    ensures Skips("/*/" + rest) == Skips(rest)
  {
    var s := "/*/" + rest;
    CloseAt(s, 0);
    CloseAt(s, 1);
    FindAt(s, "*/", 1);
    hide Skips, Find;
    assert s[0] == '/' && s[3..] == rest;
    PastCommentKeeps(s, "");
  }

  lemma EmptyCommentIsWellFormed()
    ensures BlockComment("").WellFormed()
  {
  }

  /** A body that begins with a slash closes the comment on the opener's own star. */
  lemma SlashClosesOnTheOpener(rest: string)
    ensures LeadingKeyword("/*/" + rest) == LeadingKeyword(rest)
  {
    hide LeadingKeyword, Find;
    var s := "/*/" + rest;
    CloseAt(s, 0);
    CloseAt(s, 1);
    FindAt(s, "*/", 1);
    SkipsBlockComment(s, 1);
    assert s[3..] == rest;
  }

  lemma SlashBodyLeavesItsTail()
    ensures LeadingKeyword(BlockComment("/x").Text() + "BEGIN") == Upper("x")
  {
    hide LeadingKeyword;
    assert BlockComment("/x").Text() + "BEGIN" == "/*/" + ("x" + "*/BEGIN");
    SlashClosesOnTheOpener("x" + "*/BEGIN");
    WordIsTheKeyword("x", "*/BEGIN");
  }

  lemma ShortWordsAreNotTransactionControl(query: string)
    requires |LeadingKeyword(query)| < 3
    ensures !IsTransactionControl(query)
  {
    hide LeadingKeyword;
    assert forall k :: k in TRANSACTION_KEYWORDS ==> |k| >= 3;
  }

  /** Without the condition it fails: this comment's body begins with a slash, and the keyword behind it is missed. */
  lemma SlashBodyHidesTheKeyword()
    ensures !BlockComment("/x").WellFormed()
    ensures IsTransactionControl("BEGIN") && !IsTransactionControl(BlockComment("/x").Text() + "BEGIN")
  {
    SlashBodyLeavesItsTail();
    BeginIsBegin();
    hide LeadingKeyword;
    ShortWordsAreNotTransactionControl(BlockComment("/x").Text() + "BEGIN");
  }

  lemma BeginIsBegin()
    ensures LeadingKeyword("BEGIN") == "BEGIN"
  {
    WordIsTheKeyword("BEGIN", "");
    assert "BEGIN" + "" == "BEGIN";
    assert Upper("BEGIN") == "BEGIN";
  }

  /** The keyword is the whole first word: a longer word that merely starts like one is not it. */
  lemma {:induction false} WordIsTheKeyword(word: string, rest: string)
    requires word != "" && forall c :: c in word ==> IsLetter(c)
    requires rest == "" || !IsLetter(rest[0])
    ensures LeadingKeyword(word + rest) == Upper(word)
  {
    WordLengthOf(word, rest);
    var s := word + rest;
    assert IsLetter(s[0]) && s[..|word|] == word;
  }

  lemma {:induction false} WordLengthOf(word: string, rest: string)
    requires forall c :: c in word ==> IsLetter(c)
    requires rest == "" || !IsLetter(rest[0])
    ensures WordLength(word + rest) == |word|
  {
    if word == "" {
      assert word + rest == rest;
    } else {
      assert (word + rest)[1..] == word[1..] + rest;
      WordLengthOf(word[1..], rest);
    }
  }

  // ----- the consistency hint -----

  predicate IsSpace(c: char) {
    c in "\t\n\r " || c as int == 11 || c as int == 12
  }

  /** The regular expression's own whitespace class, without the vertical tab. */
  predicate IsHintSpace(c: char) {
    c in "\t\n\r " || c as int == 12
  }

  predicate IsDigit(c: char) {
    '0' <= c <= '9'
  }

  predicate IsWordChar(c: char) {
    IsLetter(c) || IsDigit(c) || c == '_'
  }

  function LowerChar(c: char): char {
    if 'A' <= c <= 'Z' then c - 'A' + 'a' else c
  }

  function Lower(s: string): string {
    seq(|s|, i requires 0 <= i < |s| => LowerChar(s[i]))
  }

  /** The length of the longest prefix whose characters all satisfy `p`. */
  function Span(s: string, p: char -> bool): (n: nat)
    ensures n <= |s|
  {
    if s != "" && p(s[0]) then 1 + Span(s[1..], p) else 0
  }

  function SkipSpaces(s: string): string {
    s[Span(s, IsHintSpace)..]
  }

  datatype Hint = Hint(level: string, lagDigits: string)

  function AfterDashes(query: string): Option<string> {
    var s := query[Span(query, IsSpace)..];
    if "--" <= s then Some(SkipSpaces(s[2..])) else None
  }

  function AfterKey(s: string): Option<string> {
    if |s| >= |CONSISTENCY| && Lower(s[..|CONSISTENCY|]) == CONSISTENCY then Some(SkipSpaces(s[|CONSISTENCY|..])) else None
  }

  function AfterEquals(s: string): Option<string> {
    if "=" <= s then Some(SkipSpaces(s[1..])) else None
  }

  function ParseValue(s: string): Option<Hint> {
    var n := Span(s, IsWordChar);
    if n == 0 then None
    else if ":" <= s[n..] then Some(Hint(s[..n], s[n + 1..][..Span(s[n + 1..], IsDigit)]))
    else Some(Hint(s[..n], ""))
  }

  /** The hint's syntax: two dashes, the key, an equals sign, a word, and optionally a colon and digits. */
  function ParseHint(query: string): Option<Hint> {
    match AfterDashes(query)
    case None => None
    case Some(s) =>
      match AfterKey(s)
      case None => None
      case Some(s) =>
        match AfterEquals(s)
        case None => None
        case Some(s) => ParseValue(s)
  }

  const CONSISTENCY := "consistency"

  const MAX_INT64 := 0x7FFF_FFFF_FFFF_FFFF

  function DigitsValue(s: string): nat {
    if s == "" then 0
    else 10 * DigitsValue(Front(s)) + (if IsDigit(Last(s)) then Last(s) as int - '0' as int else 0)
  }

  /** The level and lag ceiling a query asks for; a missing or oversized number falls back to the default. */
  function ConsistencyFromQuery(query: string, defaultMaxLagMS: int): (string, int) {
    match ParseHint(query)
    case None => (STRONG, 0)
    case Some(hint) =>
      if Lower(hint.level) == EVENTUAL then (EVENTUAL, 0)
      else if Lower(hint.level) == BOUNDED_STALENESS then
        (BOUNDED_STALENESS,
         if hint.lagDigits != "" && DigitsValue(hint.lagDigits) <= MAX_INT64 then DigitsValue(hint.lagDigits)
         else defaultMaxLagMS)
      else (STRONG, 0)
  }

  /** No query reaches the router with an unknown level, or with a ceiling the router would read as "none". */
  lemma HintsAreAlwaysUsable(query: string, defaultMaxLagMS: int)
    requires defaultMaxLagMS >= 0
    ensures var (level, ceiling) := ConsistencyFromQuery(query, defaultMaxLagMS);
      level in {"strong", "eventual", "bounded_staleness"} && ceiling >= 0
  {
    hide ParseHint, Lower, DigitsValue;
  }

  lemma {:induction false} SpanOf(word: string, rest: string, p: char -> bool)
    requires forall c :: c in word ==> p(c)
    requires rest == "" || !p(rest[0])
    ensures Span(word + rest, p) == |word|
  {
    if word == "" {
      assert word + rest == rest;
    } else {
      assert (word + rest)[1..] == word[1..] + rest;
      SpanOf(word[1..], rest, p);
    }
  }

  lemma {:induction false} DecimalReadsBack(n: nat)
    ensures DigitsValue(Decimal(n)) == n
    ensures Decimal(n) != "" && forall c :: c in Decimal(n) ==> IsDigit(c)
  {
    if n >= 10 {
      DecimalReadsBack(n / 10);
      assert Front(Decimal(n)) == Decimal(n / 10);
    } else {
      assert Front(Decimal(n)) == "";
    }
  }

  const HINT_PREFIX := "-- " + CONSISTENCY + "="

  lemma Regroup(a: string, b: string, c: string, d: string)
    ensures a + b + c + d == a + (b + (c + d))
  {
  }

  lemma SkipNoSpaces(s: string)
    requires s == "" || !IsHintSpace(s[0])
    ensures SkipSpaces(s) == s
  {
  }

  lemma DashesAreSkipped(rest: string)
    requires rest != "" && !IsHintSpace(rest[0])
    ensures AfterDashes("-- " + rest) == Some(rest)
  {
    var query := "-- " + rest;
    assert Span(query, IsSpace) == 0;
    assert query[0..] == query && query[2..] == " " + rest;
    SpanOf(" ", rest, IsHintSpace);
  }

  lemma KeyIsSkipped(rest: string)
    requires rest == "" || !IsHintSpace(rest[0])
    ensures AfterKey(CONSISTENCY + rest) == Some(rest)
  {
    var s := CONSISTENCY + rest;
    assert s[..|CONSISTENCY|] == CONSISTENCY && s[|CONSISTENCY|..] == rest;
    assert Lower(CONSISTENCY) == CONSISTENCY;
    SkipNoSpaces(rest);
  }

  /** The scan finds its way to the value after the equals sign. */
  lemma HintPrefixIsSkipped(value: string)
    requires value == "" || !IsHintSpace(value[0])
    ensures ParseHint(HINT_PREFIX + value) == ParseValue(value)
  {
    hide AfterDashes, AfterKey, ParseValue, SkipSpaces;
    Regroup("-- ", CONSISTENCY, "=", value);
    DashesAreSkipped(CONSISTENCY + ("=" + value));
    KeyIsSkipped("=" + value);
    assert ("=" + value)[1..] == value;
    SkipNoSpaces(value);
  }

  lemma ValueIsRead(level: string, digits: string, tail: string)
    requires level != "" && forall c :: c in level ==> IsWordChar(c)
    requires forall c :: c in digits ==> IsDigit(c)
    requires tail == "" || !IsDigit(tail[0])
    ensures ParseValue(level + ":" + digits + tail) == Some(Hint(level, digits))
  {
    var s := level + ":" + digits + tail;
    assert s == level + (":" + digits + tail);
    SpanOf(level, ":" + digits + tail, IsWordChar);
    assert s[|level|..] == ":" + digits + tail;
    assert s[|level| + 1..] == digits + tail;
    SpanOf(digits, tail, IsDigit);
  }

  lemma BoundedIsAWord()
    ensures Lower(BOUNDED_STALENESS) == BOUNDED_STALENESS
    ensures forall c :: c in BOUNDED_STALENESS ==> IsWordChar(c)
  {
  }

  /** A ceiling written into a hint is the ceiling the router is given, unless it does not fit in 64 bits. */
  lemma BoundedHintRoundTrip(n: nat, tail: string, defaultMaxLagMS: int)
    requires tail == "" || !IsDigit(tail[0])
    ensures ConsistencyFromQuery(HINT_PREFIX + (BOUNDED_STALENESS + ":" + Decimal(n) + tail), defaultMaxLagMS) ==
      (BOUNDED_STALENESS, if n <= MAX_INT64 then n else defaultMaxLagMS)
  {
    BoundedIsAWord();
    hide ParseHint, DigitsValue, Decimal, ParseValue;
    DecimalReadsBack(n);
    ValueIsRead(BOUNDED_STALENESS, Decimal(n), tail);
    HintPrefixIsSkipped(BOUNDED_STALENESS + ":" + Decimal(n) + tail);
  }
}
