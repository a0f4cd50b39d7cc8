/** What a query's leading comment asks for, stated on its text. */
module HintLaws {
  import opened Prelude
  import opened Ring
  import opened Router
  import opened Sql

  // ----- characters and words, spelled out -----

  function OtherCase(c: char): char {
    if 'a' <= c <= 'z' then c - 'a' + 'A' else if 'A' <= c <= 'Z' then c - 'A' + 'a' else c
  }

  /** The same word, whatever the case of its letters. */
  predicate SameWord(w: string, k: string) {
    |w| == |k| && forall i :: 0 <= i < |k| ==> w[i] == k[i] || w[i] == OtherCase(k[i])
  }

  /** The blanks the query is trimmed of: tab, newline, vertical tab, form feed, carriage return, space. */
  predicate AllBlank(s: string) {
    forall i :: 0 <= i < |s| ==> s[i] as int in {9, 10, 11, 12, 13, 32}
  }

  /** The blanks allowed inside a hint: those, without the vertical tab. */
  predicate AllHintBlank(s: string) {
    forall i :: 0 <= i < |s| ==> s[i] as int in {9, 10, 12, 13, 32}
  }

  predicate WordChar(c: char) {
    'a' <= c <= 'z' || 'A' <= c <= 'Z' || '0' <= c <= '9' || c == '_'
  }

  predicate IsHintWord(s: string) {
    s != "" && forall i :: 0 <= i < |s| ==> WordChar(s[i])
  }

  lemma LowerIsSameWord(w: string, k: string)
    requires forall i :: 0 <= i < |k| ==> 'a' <= k[i] <= 'z' || k[i] == '_'
    ensures Lower(w) == k <==> SameWord(w, k)
  {
    if Lower(w) == k {
      forall i | 0 <= i < |k| ensures w[i] == k[i] || w[i] == OtherCase(k[i]) {
        assert Lower(w)[i] == LowerChar(w[i]);
      }
    }
  }

  // ----- no hint -----

  lemma BlanksAreSpanned(blanks: string, t: string)
    requires AllBlank(blanks) && (t == "" || !AllBlank([t[0]]))
    ensures Span(blanks + t, IsSpace) == |blanks|
  {
    assert forall c :: c in blanks ==> IsSpace(c);
    if t != "" {
      assert [t[0]][0] == t[0];
    }
    SpanOf(blanks, t, IsSpace);
  }

  /** A query whose first non-blank characters are not two dashes is strong. */
  lemma UnhintedIsStrong(blanks: string, t: string, defaultMaxLagMS: int)
    requires AllBlank(blanks) && (t == "" || !AllBlank([t[0]])) && !("--" <= t)
    ensures ConsistencyFromQuery(blanks + t, defaultMaxLagMS) == ("strong", 0)
  {
    BlanksAreSpanned(blanks, t);
    hide Span, AllBlank;
    assert (blanks + t)[|blanks|..] == t;
  }

  // ----- a hint as its parts -----

  lemma HintBlanksAreSkipped(blanks: string, t: string)
    requires AllHintBlank(blanks) && (t == "" || !AllHintBlank([t[0]]))
    ensures SkipSpaces(blanks + t) == t
  {
    assert forall c :: c in blanks ==> IsHintSpace(c);
    if t != "" {
      assert [t[0]][0] == t[0];
    }
    SpanOf(blanks, t, IsHintSpace);
    assert (blanks + t)[|blanks|..] == t;
  }

  lemma DashesAreRead(blanks: string, s: string, t: string)
    requires AllBlank(blanks) && AllHintBlank(s) && t != "" && !AllHintBlank([t[0]])
    ensures AfterDashes(blanks + ("--" + (s + t))) == Some(t)
  {
    var q := "--" + (s + t);
    assert !AllBlank([q[0]]) by {
      assert [q[0]][0] == '-';
    }
    BlanksAreSpanned(blanks, q);
    HintBlanksAreSkipped(s, t);
    hide Span, AllBlank, AllHintBlank, SkipSpaces;
    assert (blanks + q)[|blanks|..] == q && q[2..] == s + t;
  }

  lemma KeyIsRead(key: string, s: string, t: string)
    requires SameWord(key, "consistency") && AllHintBlank(s) && t != "" && !AllHintBlank([t[0]])
    ensures AfterKey(key + (s + t)) == Some(t)
    ensures key != "" && !AllHintBlank([key[0]])
  {
    LowerIsSameWord(key, "consistency");
    HintBlanksAreSkipped(s, t);
    var q := key + (s + t);
    assert [key[0]][0] == key[0];
    hide SkipSpaces, AllHintBlank, Lower;
    assert |CONSISTENCY| == |key| && q[..|key|] == key && q[|key|..] == s + t;
  }

  lemma EqualsIsRead(s: string, t: string)
    requires AllHintBlank(s) && t != "" && !AllHintBlank([t[0]])
    ensures AfterEquals("=" + (s + t)) == Some(t)
    ensures !AllHintBlank(["="[0]])
  {
    HintBlanksAreSkipped(s, t);
    assert ["="[0]][0] == '=';
    hide SkipSpaces, AllHintBlank;
    assert ("=" + (s + t))[1..] == s + t;
  }

  lemma LevelIsRead(level: string, tail: string)
    requires IsHintWord(level) && (tail == "" || !WordChar(tail[0]))
    ensures !AllHintBlank([level[0]])
    ensures ParseValue(level + tail).Some? && ParseValue(level + tail).value.level == level
    ensures ParseValue(level + tail).value.lagDigits ==
      if ":" <= tail then tail[1..][..Span(tail[1..], IsDigit)] else ""
  {
    assert [level[0]][0] == level[0];
    assert forall c :: c in level ==> IsWordChar(c);
    SpanOf(level, tail, IsWordChar);
    hide Span;
    var s := level + tail;
    assert s[..|level|] == level && s[|level|..] == tail;
    if ":" <= tail {
      assert s[|level| + 1..] == tail[1..];
    }
  }

  /** A hint, with any blanks and any case: blanks, dashes, the key, an equals sign, a word. */
  function Written(blanks: string, s1: string, key: string, s2: string, s3: string, value: string): string {
    blanks + ("--" + (s1 + (key + (s2 + ("=" + (s3 + value))))))
  }

  predicate IsHint(blanks: string, s1: string, key: string, s2: string, s3: string, level: string, tail: string) {
    && AllBlank(blanks) && AllHintBlank(s1) && AllHintBlank(s2) && AllHintBlank(s3)
    && SameWord(key, "consistency") && IsHintWord(level) && (tail == "" || !WordChar(tail[0]))
  }

  lemma HintIsParsed(blanks: string, s1: string, key: string, s2: string, s3: string, level: string, tail: string)
    requires IsHint(blanks, s1, key, s2, s3, level, tail)
    ensures ParseHint(Written(blanks, s1, key, s2, s3, level + tail)) == ParseValue(level + tail)
  {
    var value := level + tail;
    LevelIsRead(level, tail);
    hide AfterDashes, AfterKey, AfterEquals, ParseValue, AllBlank, AllHintBlank, IsHintWord, SameWord;
    assert value[0] == level[0];
    EqualsIsRead(s3, value);
    var equals := "=" + (s3 + value);
    assert equals[0] == "="[0];
    KeyIsRead(key, s2, equals);
    var rest := key + (s2 + equals);
    assert rest[0] == key[0];
    DashesAreRead(blanks, s1, rest);
  }

  lemma ParsedHintMeans(query: string, hint: Hint, defaultMaxLagMS: int)
    requires ParseHint(query) == Some(hint)
    ensures var r := ConsistencyFromQuery(query, defaultMaxLagMS);
      && (SameWord(hint.level, "eventual") ==> r == ("eventual", 0))
      && (SameWord(hint.level, "bounded_staleness") ==>
            var n := DigitsValue(hint.lagDigits);
            r == ("bounded_staleness", if hint.lagDigits != "" && n < 0x8000_0000_0000_0000 then n else defaultMaxLagMS))
      && (!SameWord(hint.level, "eventual") && !SameWord(hint.level, "bounded_staleness") ==> r == ("strong", 0))
  {
    hide ParseHint, SameWord, Lower, DigitsValue;
    LowerIsSameWord(hint.level, "eventual");
    LowerIsSameWord(hint.level, "bounded_staleness");
  }

  lemma DigitsAfterColon(tail: string)
    ensures ":" <= tail && Span(tail[1..], IsDigit) > 0 <==> |tail| >= 2 && tail[0] == ':' && '0' <= tail[1] <= '9'
  {
  }

  /** What each hint asks for: eventual, bounded by the default when no number follows, and strong for any other word. */
  lemma HintMeansItsWord(blanks: string, s1: string, key: string, s2: string, s3: string, level: string, tail: string,
                         defaultMaxLagMS: int)
    requires IsHint(blanks, s1, key, s2, s3, level, tail)
    ensures var r := ConsistencyFromQuery(Written(blanks, s1, key, s2, s3, level + tail), defaultMaxLagMS);
      && (SameWord(level, "eventual") ==> r == ("eventual", 0))
      && (SameWord(level, "bounded_staleness") && !(|tail| >= 2 && tail[0] == ':' && '0' <= tail[1] <= '9') ==>
            r == ("bounded_staleness", defaultMaxLagMS))
      && (!SameWord(level, "eventual") && !SameWord(level, "bounded_staleness") ==> r == ("strong", 0))
  {
    hide Written, ParseHint, ParseValue, SameWord, DigitsValue, AllBlank, AllHintBlank, IsHintWord, ConsistencyFromQuery, Span;
    HintIsParsed(blanks, s1, key, s2, s3, level, tail);
    LevelIsRead(level, tail);
    DigitsAfterColon(tail);
    ParsedHintMeans(Written(blanks, s1, key, s2, s3, level + tail), ParseValue(level + tail).value, defaultMaxLagMS);
  }

  /** And a bounded hint with a number asks for that many milliseconds, or the default past 63 bits. */
  lemma NumberedHintIsItsNumber(blanks: string, s1: string, key: string, s2: string, s3: string, level: string, n: nat,
                                tail: string, defaultMaxLagMS: int)
    requires IsHint(blanks, s1, key, s2, s3, level, ":" + (Decimal(n) + tail)) && SameWord(level, "bounded_staleness")
    requires tail == "" || !('0' <= tail[0] <= '9')
    ensures ConsistencyFromQuery(Written(blanks, s1, key, s2, s3, level + (":" + (Decimal(n) + tail))), defaultMaxLagMS)
      == ("bounded_staleness", if n < 0x8000_0000_0000_0000 then n else defaultMaxLagMS)
  {
    hide Written, ParseHint, ParseValue, SameWord, DigitsValue, AllBlank, AllHintBlank, IsHintWord, ConsistencyFromQuery, Span;
    hide Decimal;
    var after := ":" + (Decimal(n) + tail);
    DecimalReadsBack(n);
    SpanOf(Decimal(n), tail, IsDigit);
    assert after[1..] == Decimal(n) + tail && (Decimal(n) + tail)[..|Decimal(n)|] == Decimal(n);
    HintIsParsed(blanks, s1, key, s2, s3, level, after);
    LevelIsRead(level, after);
    ParsedHintMeans(Written(blanks, s1, key, s2, s3, level + after), ParseValue(level + after).value, defaultMaxLagMS);
  }

  // ----- only a hint is a hint -----

  lemma {:induction false} SpanSplits(s: string, p: char -> bool)
    ensures forall i :: 0 <= i < Span(s, p) ==> p(s[i])
    ensures Span(s, p) < |s| ==> !p(s[Span(s, p)])
  {
    if s != "" && p(s[0]) {
      SpanSplits(s[1..], p);
    }
  }

  lemma HintBlanksAre(s: string) returns (blanks: string)
    ensures AllHintBlank(blanks) && s == blanks + SkipSpaces(s)
  {
    SpanSplits(s, IsHintSpace);
    blanks := s[..Span(s, IsHintSpace)];
  }

  lemma KeyIsSame(s: string)
    requires |s| >= |CONSISTENCY| && Lower(s[..|CONSISTENCY|]) == CONSISTENCY
    ensures SameWord(s[..|CONSISTENCY|], "consistency")
  {
    LowerIsSameWord(s[..|CONSISTENCY|], "consistency");
  }

  lemma ValueHasALevel(s: string) returns (level: string, tail: string)
    requires ParseValue(s).Some?
    ensures IsHintWord(level) && (tail == "" || !WordChar(tail[0])) && s == level + tail
  {
    SpanSplits(s, IsWordChar);
    level, tail := s[..Span(s, IsWordChar)], s[Span(s, IsWordChar)..];
  }

  lemma LeadingBlanks(query: string) returns (blanks: string, s: string)
    ensures AllBlank(blanks) && query == blanks + s && s == query[Span(query, IsSpace)..]
  {
    SpanSplits(query, IsSpace);
    blanks, s := query[..Span(query, IsSpace)], query[Span(query, IsSpace)..];
  }

  /** A query read as anything but strong is written as a hint, so nothing else moves a query off the primary. */
  lemma OnlyHintsAreNotStrong(query: string, defaultMaxLagMS: int)
    returns (blanks: string, s1: string, key: string, s2: string, s3: string, level: string, tail: string)
    requires ConsistencyFromQuery(query, defaultMaxLagMS).0 != "strong"
    ensures IsHint(blanks, s1, key, s2, s3, level, tail) && query == Written(blanks, s1, key, s2, s3, level + tail)
  {
    hide ParseValue, AllBlank, AllHintBlank, IsHintWord, SameWord, SkipSpaces, Lower, Span, DigitsValue;
    var s, k, e, v;
    blanks, s := LeadingBlanks(query);
    s1 := HintBlanksAre(s[2..]);
    k := SkipSpaces(s[2..]);
    KeyIsSame(k);
    key := k[..|CONSISTENCY|];
    s2 := HintBlanksAre(k[|CONSISTENCY|..]);
    e := SkipSpaces(k[|CONSISTENCY|..]);
    s3 := HintBlanksAre(e[1..]);
    v := SkipSpaces(e[1..]);
    level, tail := ValueHasALevel(v);
    assert s == "--" + s[2..] && k == key + k[|CONSISTENCY|..] && e == "=" + e[1..];
  }
}
