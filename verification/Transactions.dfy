/** Which queries are refused as transaction control, stated on their text. */
module Transactions {
  import opened Prelude
  import opened Sql
  import opened HintLaws

  /** The eight words that open, close or subdivide a transaction, in any case. */
  predicate IsTransactionWord(word: string) {
    || SameWord(word, "BEGIN") || SameWord(word, "START") || SameWord(word, "COMMIT") || SameWord(word, "END")
    || SameWord(word, "ROLLBACK") || SameWord(word, "ABORT") || SameWord(word, "SAVEPOINT") || SameWord(word, "RELEASE")
  }

  predicate Letter(c: char) {
    'a' <= c <= 'z' || 'A' <= c <= 'Z'
  }

  /** Behind a text the scan passes over, the query's first word is `word`. */
  predicate FirstWordIs(query: string, before: string, word: string, rest: string) {
    && query == before + (word + rest) && Skips(before)
    && word != "" && (forall i :: 0 <= i < |word| ==> Letter(word[i]))
    && (rest == "" || !Letter(rest[0]))
  }

  /** The query's first word is one of the eight. */
  ghost predicate IsTransaction(query: string) {
    exists before, word, rest :: FirstWordIs(query, before, word, rest) && IsTransactionWord(word)
  }

  // ----- the blanks between statements and comments -----

  /** Exactly four characters are passed over as blanks. */
  lemma BlankExactlyWhen(c: char)
    ensures Skips([c]) <==> c == ' ' || c == '\t' || c == '\r' || c == '\n'
  {
    var s := [c];
    assert s[0] == c && s[1..] == "";
    assert TrimBlanks("") == "";
    if IsBlank(c) {
      assert TrimBlanks(s) == "";
    } else {
      assert TrimBlanks(s) == s && |s| == 1;
    }
  }

  // ----- the first word is the keyword -----

  lemma UpperIsSameWord(w: string, k: string)
    requires forall i :: 0 <= i < |k| ==> 'A' <= k[i] <= 'Z'
    ensures Upper(w) == k <==> SameWord(w, k)
  {
    if Upper(w) == k {
      forall i | 0 <= i < |k| ensures w[i] == k[i] || w[i] == OtherCase(k[i]) {
        assert Upper(w)[i] == UpperChar(w[i]);
      }
    }
  }

  lemma UpperIsATransactionWord(word: string)
    ensures Upper(word) in TRANSACTION_KEYWORDS <==> IsTransactionWord(word)
  {
    UpperIsSameWord(word, "BEGIN");
    UpperIsSameWord(word, "START");
    UpperIsSameWord(word, "COMMIT");
    UpperIsSameWord(word, "END");
    UpperIsSameWord(word, "ROLLBACK");
    UpperIsSameWord(word, "ABORT");
    UpperIsSameWord(word, "SAVEPOINT");
    UpperIsSameWord(word, "RELEASE");
    hide SameWord, Upper;
  }

  /** With a given first word, a query is transaction control exactly when that word is one of the eight. */
  lemma RefusedExactlyForTheEight(query: string, before: string, word: string, rest: string)
    requires FirstWordIs(query, before, word, rest)
    ensures IsTransactionControl(query) <==> IsTransactionWord(word)
  {
    hide LeadingKeyword, Skips, Upper, IsTransactionWord, TRANSACTION_KEYWORDS;
    assert forall c :: c in word ==> IsLetter(c);
    WordIsTheKeyword(word, rest);
    SkippedIsTransparent(before, word + rest);
    UpperIsATransactionWord(word);
  }

  // ----- every keyword is a first word -----

  lemma {:induction false} TrimSplits(s: string, u: string)
    ensures |TrimBlanks(s)| <= |s| && s[|s| - |TrimBlanks(s)|..] == TrimBlanks(s)
    ensures TrimBlanks(s[..|s| - |TrimBlanks(s)|] + u) == TrimBlanks(u)
  {
    var n := |s| - |TrimBlanks(s)|;
    if s != "" && IsBlank(s[0]) {
      TrimSplits(s[1..], u);
      assert s[..n] + u == [s[0]] + (s[1..][..n - 1] + u);
      assert (s[..n] + u)[1..] == s[1..][..n - 1] + u;
    } else {
      assert s[..n] + u == u && s[n..] == s;
    }
  }

  /** A first occurrence is found in any text that agrees up to its end. */
  lemma FindDependsOnStart(t: string, pat: string, x: string)
    requires pat != "" && Find(t, pat) >= 0
    ensures Find(t[..Find(t, pat) + |pat|] + x, pat) == Find(t, pat)
  {
    hide Find;
    var i := Find(t, pat);
    var head, tail := t[..i + |pat|], t[i + |pat|..];
    assert t == head + tail;
    FindIsFirst(t, pat);
    forall k | 0 <= k <= i ensures pat <= head[k..] <==> k == i {
      OccursAlike(head, pat, tail, k);
    }
    FindAt(head, pat, i);
    FindAppend(head, pat, x);
  }

  /** `pat` ends the comment that `t` begins with. */
  predicate Ends(t: string, pat: string) {
    ("--" <= t && pat == "\n") || ("/*" <= t && pat == "*/")
  }

  lemma EndsIsPast(t: string, pat: string)
    requires Ends(t, pat) && Find(t, pat) >= 0
    ensures pat != "" && 2 <= Find(t, pat) + |pat| <= |t|
  {
    FindIsFirst(t, pat);
    hide Find;
    var k := Find(t, pat);
    assert t[k..][0] == t[k] == pat[0];
    assert k != 0;
  }

  lemma NotBlankFirst(t: string)
    requires t != "" && !IsBlank(t[0])
    ensures TrimBlanks(t) == t
  {
  }

  lemma PastIt(t: string, pat: string)
    requires Ends(t, pat) && TrimBlanks(t) == t && Find(t, pat) >= 0
    ensures PastComment(t) == Some(t[Find(t, pat) + |pat|..])
  {
    hide Find, TrimBlanks;
    assert "/*" <= t ==> t[0] == '/';
    assert "--" <= t ==> t[0] == '-';
  }

  lemma SameStart(t: string, end: nat, x: string)
    requires 2 <= end <= |t|
    ensures var u := t[..end] + x; u[0] == t[0] && forall pat :: Ends(u, pat) <==> Ends(t, pat)
  {
    var u := t[..end] + x;
    assert u[0] == t[0] && u[1] == t[1];
  }

  lemma CommentIsPassed(t: string, pat: string, x: string)
    requires Ends(t, pat) && Find(t, pat) >= 0 && TrimBlanks(t) == t && t != "" && !IsBlank(t[0])
    ensures var end := Find(t, pat) + |pat|;
      end <= |t| && PastComment(t) == Some(t[end..]) && PastComment(t[..end] + x) == Some(x)
  {
    hide Find, TrimBlanks, IsBlank, PastComment, Ends;
    EndsIsPast(t, pat);
    var end := Find(t, pat) + |pat|;
    var u := t[..end] + x;
    PastIt(t, pat);
    FindDependsOnStart(t, pat, x);
    SameStart(t, end, x);
    NotBlankFirst(u);
    PastIt(u, pat);
    assert u[end..] == x;
  }

  /** Which mark ends the comment that was passed. */
  lemma CommentMark(s: string) returns (pat: string)
    requires PastComment(s).Some?
    ensures var t := TrimBlanks(s); t != "" && Ends(t, pat) && Find(t, pat) >= 0
  {
    hide Find;
    pat := if "--" <= TrimBlanks(s) then "\n" else "*/";
  }

  lemma BlanksDoNotMatter(s: string, u: string)
    requires TrimBlanks(s) == TrimBlanks(u)
    ensures PastComment(s) == PastComment(u)
  {
    hide Find, TrimBlanks;
  }

  lemma CommentIsPassedAlike(s: string, x: string)
    requires PastComment(s).Some?
    ensures var r := PastComment(s).value;
      |r| <= |s| && s[|s| - |r|..] == r && PastComment(s[..|s| - |r|] + x) == Some(x)
  {
    var pat := CommentMark(s);
    hide PastComment, TrimBlanks, IsBlank, Find, Ends;
    var t, r, blanks := TrimBlanks(s), PastComment(s).value, s[..|s| - |TrimBlanks(s)|];
    TrimIsIdempotent(s);
    TrimmedStart(s);
    BlanksDoNotMatter(t, s);
    CommentIsPassed(t, pat, x);
    var head := t[..Find(t, pat) + |pat|];
    TrimSplits(s, head + x);
    BlanksDoNotMatter(blanks + (head + x), head + x);
    assert s == blanks + t && t == head + r;
    hide *;
    Pieces(s, blanks, head, r, x);
  }

  lemma Pieces(s: string, blanks: string, head: string, r: string, x: string)
    requires s == blanks + (head + r)
    ensures s[|s| - |r|..] == r && s[..|s| - |r|] + x == blanks + (head + x)
  {
    assert s[..|s| - |r|] == blanks + head;
  }

  lemma {:induction false} KeywordIsFirstWord(query: string) returns (before: string, word: string, rest: string)
    requires LeadingKeyword(query) != ""
    ensures FirstWordIs(query, before, word, rest)
    decreases |query|
  {
    hide LeadingKeyword, Skips, PastComment;
    if PastComment(query).Some? {
      var r := PastComment(query).value;
      KeywordOfRest(query);
      before, word, rest := KeywordIsFirstWord(r);
      before := FirstWordBehind(query, before, word, rest);
    } else {
      before, word, rest := WordAfterBlanks(query);
    }
  }

  lemma KeywordOfRest(query: string)
    requires PastComment(query).Some?
    ensures LeadingKeyword(query) == LeadingKeyword(PastComment(query).value)
  {
    hide LeadingKeyword, PastComment;
    PastCommentKeeps(query, "");
    assert query + "" == query && PastComment(query).value + "" == PastComment(query).value;
  }

  lemma FirstWordBehind(query: string, before: string, word: string, rest: string) returns (longer: string)
    requires PastComment(query).Some? && FirstWordIs(PastComment(query).value, before, word, rest)
    ensures FirstWordIs(query, longer, word, rest)
  {
    hide LeadingKeyword, Skips, PastComment;
    var r := PastComment(query).value;
    CommentIsPassedAlike(query, before);
    var c := query[..|query| - |r|];
    longer := c + before;
    PastCommentKeeps(longer, "");
    assert longer + (word + rest) == c + (before + (word + rest)) == c + r == query;
  }

  lemma WordAfterBlanks(query: string) returns (before: string, word: string, rest: string)
    requires LeadingKeyword(query) != "" && PastComment(query).None?
    ensures FirstWordIs(query, before, word, rest)
  {
    var t := TrimBlanks(query);
    TrimSplits(query, "");
    TrimmedKeyword(query);
    TrimmedStart(query);
    NoOpenComment(query);
    WordOfTrimmed(t);
    WordLengthSplits(t);
    before, word, rest := query[..|query| - |t|], t[..WordLength(t)], t[WordLength(t)..];
    BlankIsSkipped(before);
    hide LeadingKeyword, WordLength, TrimBlanks, PastComment, Skips;
    assert before + "" == before && query == before + t && t == word + rest;
  }

  lemma BlankIsSkipped(s: string)
    ensures TrimBlanks(s + "") == "" ==> Skips(s)
  {
    assert s + "" == s;
  }

  lemma NoOpenComment(query: string)
    requires LeadingKeyword(query) != "" && PastComment(query).None?
    ensures var t := TrimBlanks(query); !("--" <= t) && !("/*" <= t)
  {
    hide Find;
  }

  lemma WordOfTrimmed(t: string)
    requires LeadingKeyword(t) != "" && !("--" <= t) && !("/*" <= t) && (t == "" || !IsBlank(t[0]))
    ensures WordLength(t) > 0
  {
  }

  lemma {:induction false} WordLengthSplits(t: string)
    ensures forall i :: 0 <= i < WordLength(t) ==> Letter(t[i])
    ensures WordLength(t) < |t| ==> !Letter(t[WordLength(t)])
  {
    if t != "" && IsLetter(t[0]) {
      WordLengthSplits(t[1..]);
    }
  }

  lemma EmptyIsNoKeyword()
    ensures "" !in TRANSACTION_KEYWORDS
  {
  }

  /** The proxy's verdict, on every query: refused if and only if the first word is one of the eight. */
  lemma TransactionControlExactlyWhen(query: string)
    ensures IsTransactionControl(query) <==> IsTransaction(query)
  {
    hide LeadingKeyword, FirstWordIs, IsTransactionWord, TRANSACTION_KEYWORDS;
    EmptyIsNoKeyword();
    if IsTransactionControl(query) {
      var before, word, rest := KeywordIsFirstWord(query);
      RefusedExactlyForTheEight(query, before, word, rest);
    }
    if IsTransaction(query) {
      var before, word, rest :| FirstWordIs(query, before, word, rest) && IsTransactionWord(word);
      RefusedExactlyForTheEight(query, before, word, rest);
    }
  }
}
