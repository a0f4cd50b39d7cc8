/** Payloads of the result messages, each against a client-side reader written from the message formats. */
module WireRows {
  import opened Prelude
  import opened Wire

  // ----- DataRow -----

  const NULL_LENGTH := 0xFFFF_FFFF

  /** A column: NULL is length -1 and no bytes, a text is its length and its bytes. */
  function Cell(v: Option<Bytes>): Bytes {
    match v
    case None => [0xFF, 0xFF, 0xFF, 0xFF]
    case Some(text) => Word(|text|) + text
  }

  function Cells(values: seq<Option<Bytes>>): Bytes {
    if values == [] then [] else Cells(Front(values)) + Cell(Last(values))
  }

  lemma NoCells()
    ensures Cells([]) == []
  {
  }

  lemma OneMoreCell(values: seq<Option<Bytes>>, v: Option<Bytes>)
    ensures Cells(values + [v]) == Cells(values) + Cell(v)
  {
    hide Cell;
    assert Front(values + [v]) == values;
  }

  method DataRow(values: seq<Option<Bytes>>) returns (payload: Bytes)
    ensures payload == Half(|values|) + Cells(values)
  {
    hide Word, Half, Cells;
    NoCells();
    payload := Half(|values|);
    for i := 0 to |values|
      invariant payload == Half(|values|) + Cells(values[..i])
    {
      assert values[..i + 1] == values[..i] + [values[i]];
      OneMoreCell(values[..i], values[i]);
      match values[i] {
        case None =>
          payload := payload + [0xFF, 0xFF, 0xFF, 0xFF];
        case Some(text) =>
          payload := payload + Word(|text|);
          payload := payload + text;
      }
    }
    assert values[..|values|] == values;
  }

  /** The client's reading of `n` columns: a signed 32-bit length, then that many bytes. */
  function CellsOf(n: nat, b: Bytes): Option<seq<Option<Bytes>>> {
    if n == 0 then if b == [] then Some([]) else None
    else if |b| < 4 then None
    else
      var length := WordOf(b[..4]);
      if length == NULL_LENGTH then Prepend(Option.None, CellsOf(n - 1, b[4..]))
      else if length >= 0x8000_0000 || length > |b| - 4 then None
      else Prepend(Some(b[4..4 + length]), CellsOf(n - 1, b[4 + length..]))
  }

  function Prepend<T>(x: T, rest: Option<seq<T>>): Option<seq<T>> {
    match rest
    case None => None
    case Some(xs) => Some([x] + xs)
  }

  function RowOf(payload: Bytes): Option<seq<Option<Bytes>>> {
    if |payload| < 2 then None else CellsOf(HalfOf(payload[..2]), payload[2..])
  }

  lemma {:induction false} CellsCons(values: seq<Option<Bytes>>)
    requires values != []
    ensures Cells(values) == Cell(values[0]) + Cells(values[1..])
  {
    hide Cell;
    if |values| > 1 {
      assert Front(values)[0] == values[0];
      assert Front(values)[1..] == Front(values[1..]);
      CellsCons(Front(values));
      assert Last(values[1..]) == Last(values);
    } else {
      assert Front(values) == [] && values[1..] == [];
    }
  }

  lemma Cut<T>(a: seq<T>, b: seq<T>)
    ensures (a + b)[..|a|] == a && (a + b)[|a|..] == b
  {
  }

  lemma NullReadsBack(n: nat, rest: Bytes)
    ensures CellsOf(n + 1, Cell(None) + rest) == Prepend(None, CellsOf(n, rest))
  {
    var minusOne: Bytes := [0xFF, 0xFF, 0xFF, 0xFF];
    Cut(minusOne, rest);
    assert WordOf(minusOne) == NULL_LENGTH;
    hide WordOf;
    assert CellsOf(n + 1, minusOne + rest) == Prepend(None, CellsOf(n, rest));
  }

  lemma TextReadsBack(head: Bytes, text: Bytes, n: nat, rest: Bytes)
    requires |head| == 4 && WordOf(head) == |text| < 0x8000_0000
    ensures CellsOf(n + 1, head + text + rest) == Prepend(Some(text), CellsOf(n, rest))
  {
    hide WordOf;
    var b := head + text + rest;
    assert b[..4] == head;
    assert b[4..4 + |text|] == text;
    assert b[4 + |text|..] == rest;
  }

  lemma CellReadsBack(v: Option<Bytes>, n: nat, rest: Bytes)
    requires v.Some? ==> |v.value| < 0x8000_0000
    ensures CellsOf(n + 1, Cell(v) + rest) == Prepend(v, CellsOf(n, rest))
  {
    match v {
      case None => NullReadsBack(n, rest);
      case Some(text) =>
        WordRoundTrip(|text|);
        assert |Word(|text|)| == 4;
        hide Word, WordOf, CellsOf;
        TextReadsBack(Word(|text|), text, n, rest);
    }
  }

  /** No text is too long for a signed 32-bit length. */
  predicate AllShort(values: seq<Option<Bytes>>) {
    forall i :: 0 <= i < |values| && values[i].Some? ==> |values[i].value| < 0x8000_0000
  }

  lemma {:induction false} CellsReadBack(values: seq<Option<Bytes>>)
    requires AllShort(values)
    ensures CellsOf(|values|, Cells(values)) == Some(values)
  {
    if values != [] {
      CellsCons(values);
      CellReadsBack(values[0], |values| - 1, Cells(values[1..]));
      CellsReadBack(values[1..]);
      assert [values[0]] + values[1..] == values;
    }
  }

  lemma {:induction false} CellCount(n: nat, b: Bytes)
    ensures CellsOf(n, b).Some? ==> |CellsOf(n, b).value| == n
  {
    if n > 0 && |b| >= 4 {
      var length := WordOf(b[..4]);
      if length == NULL_LENGTH {
        CellCount(n - 1, b[4..]);
      } else if length <= |b| - 4 {
        CellCount(n - 1, b[4 + length..]);
      }
    }
  }

  lemma RowHead(values: seq<Option<Bytes>>)
    ensures RowOf(Half(|values|) + Cells(values)) == CellsOf(|values| % 0x1_0000, Cells(values))
  {
    hide Cells, CellsOf;
    HalfRoundTrip(|values|);
    Cut(Half(|values|), Cells(values));
  }

  lemma ShortCons(v: Option<Bytes>, rest: seq<Option<Bytes>>)
    requires AllShort(rest) && (v.Some? ==> |v.value| < 0x8000_0000)
    ensures AllShort([v] + rest)
  {
  }

  /** The client never reads a longer text. */
  lemma {:induction false} CellsAreShort(n: nat, b: Bytes)
    ensures CellsOf(n, b).Some? ==> AllShort(CellsOf(n, b).value)
  {
    hide AllShort, WordOf;
    if n == 0 {
      NoneIsShort();
    } else if CellsOf(n, b).Some? {
      var length := WordOf(b[..4]);
      if length == NULL_LENGTH {
        CellsAreShort(n - 1, b[4..]);
        ShortCons(Option.None, CellsOf(n - 1, b[4..]).value);
      } else {
        CellsAreShort(n - 1, b[4 + length..]);
        ShortCons(Some(b[4..4 + length]), CellsOf(n - 1, b[4 + length..]).value);
      }
    }
  }

  lemma NoneIsShort()
    ensures AllShort([])
  {
  }

  /** A data row reads back, NULL apart from the empty string, exactly when its count and its lengths can be carried. */
  lemma RowReadsBackExactlyWhen(values: seq<Option<Bytes>>)
    ensures RowOf(Half(|values|) + Cells(values)) == Some(values) <==> |values| < 0x1_0000 && AllShort(values)
  {
    hide RowOf, Half, Cells, CellsOf, AllShort;
    RowHead(values);
    CellCount(|values| % 0x1_0000, Cells(values));
    CellsAreShort(|values| % 0x1_0000, Cells(values));
    if |values| < 0x1_0000 && AllShort(values) {
      CellsReadBack(values);
    }
  }

  // ----- RowDescription -----

  /** Every column is announced as text: type 25, variable length, no modifier, text format. */
  function Column(name: Bytes): Bytes {
    CString(name) + (Word(0) + Half(0) + Word(25) + Half(0xFFFF) + Word(0xFFFF_FFFF) + Half(0))
  }

  function Columns(names: seq<Bytes>): Bytes {
    if names == [] then [] else Columns(Front(names)) + Column(Last(names))
  }

  method RowDescription(columns: seq<Bytes>) returns (payload: Bytes)
    ensures payload == Half(|columns|) + Columns(columns)
  {
    hide Word, Half;
    payload := Half(|columns|);
    for i := 0 to |columns|
      invariant payload == Half(|columns|) + Columns(columns[..i])
    {
      assert Front(columns[..i + 1]) == columns[..i];
      payload := payload + CString(columns[i]);
      payload := payload + (Word(0) + Half(0) + Word(25) + Half(0xFFFF) + Word(0xFFFF_FFFF) + Half(0));
    }
    assert columns[..|columns|] == columns;
  }

  datatype Field = Field(name: Bytes, table: nat, attr: nat, typeOid: nat, typeLen: int, typeMod: int, format: nat)

  function Signed(n: nat, width: nat): int {
    if n < width / 2 then n else n - width
  }

  lemma NulFreeCons(b: Bytes, k: nat)
    requires b != [] && b[0] != 0 && k < |b| && NulFree(b[1..][..k])
    ensures NulFree(b[..k + 1])
  {
    assert b[..k + 1] == [b[0]] + b[1..][..k];
  }

  /** The first NUL of `b`, or its end. */
  function NulAt(b: Bytes): (k: nat)
    ensures k <= |b| && NulFree(b[..k]) && (k < |b| ==> b[k] == 0)
  {
    if b == [] || b[0] == 0 then 0
    else
      NulFreeCons(b, NulAt(b[1..]));
      NulAt(b[1..]) + 1
  }

  lemma NulAtCString(s: Bytes, rest: Bytes)
    ensures NulAt(CString(s) + rest) == |s| <==> NulFree(s)
    ensures NulFree(s) ==> (CString(s) + rest)[..|s|] == s && (CString(s) + rest)[|s| + 1..] == rest
  {
    var b := CString(s) + rest;
    var k := NulAt(b);
    assert b[|s|] == 0;
    if k < |s| {
      assert s[k] == b[k] == 0;
    } else {
      assert forall i :: 0 <= i < |s| ==> b[..k][i] == s[i];
    }
    assert b[..|s|] == s && b[|s| + 1..] == rest;
  }

  /** The 18 bytes after a column's name. */
  function FieldOf(name: Bytes, b: Bytes): Field
    requires |b| == 18
  {
    Field(name, WordOf(b[..4]), HalfOf(b[4..6]), WordOf(b[6..10]),
          Signed(HalfOf(b[10..12]), 0x1_0000), Signed(WordOf(b[12..16]), 0x1_0000_0000), HalfOf(b[16..18]))
  }

  function FieldsOf(n: nat, b: Bytes): Option<seq<Field>> {
    if n == 0 then if b == [] then Some([]) else None
    else
      var k := NulAt(b);
      if |b| < k + 19 then None
      else Prepend(FieldOf(b[..k], b[k + 1..k + 19]), FieldsOf(n - 1, b[k + 19..]))
  }

  function DescriptionOf(payload: Bytes): Option<seq<Field>> {
    if |payload| < 2 then None else FieldsOf(HalfOf(payload[..2]), payload[2..])
  }

  function TextField(name: Bytes): Field {
    Field(name, 0, 0, 25, -1, -1, 0)
  }

  function TextFields(names: seq<Bytes>): seq<Field> {
    if names == [] then [] else [TextField(names[0])] + TextFields(names[1..])
  }

  lemma {:induction false} ColumnsCons(names: seq<Bytes>)
    requires names != []
    ensures Columns(names) == Column(names[0]) + Columns(names[1..])
  {
    hide Column;
    if |names| > 1 {
      assert Front(names)[0] == names[0];
      assert Front(names)[1..] == Front(names[1..]);
      ColumnsCons(Front(names));
      assert Last(names[1..]) == Last(names);
    } else {
      assert Front(names) == [] && names[1..] == [];
    }
  }

  lemma FieldOfParts(name: Bytes, table: Bytes, attr: Bytes, typ: Bytes, len: Bytes, mod: Bytes, format: Bytes)
    requires |table| == |typ| == |mod| == 4 && |attr| == |len| == |format| == 2
    ensures var b := table + attr + typ + len + mod + format;
      |b| == 18 && FieldOf(name, b) == Field(name, WordOf(table), HalfOf(attr), WordOf(typ),
        Signed(HalfOf(len), 0x1_0000), Signed(WordOf(mod), 0x1_0000_0000), HalfOf(format))
  {
    hide WordOf, HalfOf, Signed;
    var b := table + attr + typ + len + mod + format;
    assert b[..4] == table && b[4..6] == attr && b[6..10] == typ;
    assert b[10..12] == len && b[12..16] == mod && b[16..18] == format;
  }

  lemma TextFieldReadsBack(name: Bytes)
    ensures var b := Word(0) + Half(0) + Word(25) + Half(0xFFFF) + Word(0xFFFF_FFFF) + Half(0);
      |b| == 18 && FieldOf(name, b) == TextField(name)
  {
    hide Word, WordOf, Half, HalfOf, FieldOf;
    WordRoundTrip(0);
    WordRoundTrip(25);
    WordRoundTrip(0xFFFF_FFFF);
    HalfRoundTrip(0);
    HalfRoundTrip(0xFFFF);
    FieldOfParts(name, Word(0), Half(0), Word(25), Half(0xFFFF), Word(0xFFFF_FFFF), Half(0));
  }

  lemma ColumnReadsBack(name: Bytes, n: nat, rest: Bytes)
    requires NulFree(name)
    ensures FieldsOf(n + 1, Column(name) + rest) == Prepend(TextField(name), FieldsOf(n, rest))
  {
    var tail := Word(0) + Half(0) + Word(25) + Half(0xFFFF) + Word(0xFFFF_FFFF) + Half(0);
    var b := Column(name) + rest;
    TextFieldReadsBack(name);
    NulAtCString(name, tail + rest);
    hide Word, Half, FieldOf, CString, NulFree, NulAt;
    assert b == CString(name) + (tail + rest);
    var k := |name|;
    assert b[k + 1..] == tail + rest;
    assert b[k + 1..k + 19] == (tail + rest)[..18] == tail;
    assert b[k + 19..] == (tail + rest)[18..] == rest;
  }

  lemma {:induction false} DescriptionReadsBack(names: seq<Bytes>)
    requires AllNulFree(names)
    ensures FieldsOf(|names|, Columns(names)) == Some(TextFields(names))
  {
    hide Column;
    if names != [] {
      ColumnsCons(names);
      ColumnReadsBack(names[0], |names| - 1, Columns(names[1..]));
      DescriptionReadsBack(names[1..]);
    }
  }

  lemma {:induction false} TextFieldAt(names: seq<Bytes>, i: nat)
    ensures |TextFields(names)| == |names|
    ensures i < |names| ==> TextFields(names)[i] == TextField(names[i])
  {
    if names != [] {
      TextFieldAt(names[1..], if i == 0 then 0 else i - 1);
    }
  }

  lemma {:induction false} FieldCount(n: nat, b: Bytes)
    ensures FieldsOf(n, b).Some? ==> |FieldsOf(n, b).value| == n
    ensures FieldsOf(n, b).Some? ==> forall i :: 0 <= i < n ==> NulFree(FieldsOf(n, b).value[i].name)
  {
    hide WordOf, HalfOf, NulFree;
    if n > 0 {
      var k := NulAt(b);
      if |b| >= k + 19 {
        FieldCount(n - 1, b[k + 19..]);
      }
    }
  }

  lemma DescriptionHead(names: seq<Bytes>)
    ensures DescriptionOf(Half(|names|) + Columns(names)) == FieldsOf(|names| % 0x1_0000, Columns(names))
  {
    hide Columns, FieldsOf;
    HalfRoundTrip(|names|);
    Cut(Half(|names|), Columns(names));
  }

  /** A row description reads back as text columns of those names exactly when names and count can be carried. */
  lemma DescriptionReadsBackExactlyWhen(names: seq<Bytes>)
    ensures DescriptionOf(Half(|names|) + Columns(names)) == Some(TextFields(names)) <==>
      |names| < 0x1_0000 && AllNulFree(names)
  {
    hide TextFields, NulFree, FieldsOf, Columns, DescriptionOf, Half;
    DescriptionHead(names);
    FieldCount(|names| % 0x1_0000, Columns(names));
    TextFieldAt(names, 0);
    if |names| < 0x1_0000 {
      if AllNulFree(names) {
        DescriptionReadsBack(names);
      } else {
        var i :| 0 <= i < |names| && !NulFree(names[i]);
        TextFieldAt(names, i);
      }
    }
  }

  // ----- ErrorResponse -----

  const SEVERITY: Byte := 'S' as int
  const CODE: Byte := 'C' as int
  const MESSAGE: Byte := 'M' as int

  function ErrorPayload(severity: Bytes, code: Bytes, message: Bytes): Bytes {
    [SEVERITY] + CString(severity) + [CODE] + CString(code) + [MESSAGE] + CString(message) + [0]
  }

  /** The client's reading: fields of a type byte and a C string, up to a zero type byte. */
  function ErrorFieldsOf(b: Bytes): Option<seq<(Byte, Bytes)>>
    decreases |b|
  {
    if b == [] then None
    else if b[0] == 0 then if |b| == 1 then Some([]) else None
    else
      var k := NulAt(b[1..]);
      if k == |b| - 1 then None
      else Prepend((b[0], b[1..][..k]), ErrorFieldsOf(b[1..][k + 1..]))
  }

  lemma ErrorFieldReadsBack(kind: Byte, text: Bytes, rest: Bytes, others: seq<(Byte, Bytes)>)
    requires kind != 0
    ensures ErrorFieldsOf([kind] + (CString(text) + rest)) == Some([(kind, text)] + others) <==>
      NulFree(text) && ErrorFieldsOf(rest) == Some(others)
  {
    assert |CString(text)| == |text| + 1;
    hide CString, NulFree;
    var b, more := [kind] + (CString(text) + rest), ErrorFieldsOf(rest);
    var k := NulAt(b[1..]);
    assert b[1..] == CString(text) + rest;
    NulAtCString(text, rest);
    if k == |text| {
      assert ErrorFieldsOf(b) == Prepend((kind, text), more);
      if more.Some? {
        PrependCancels((kind, text), more.value, others);
      }
    } else if ErrorFieldsOf(b).Some? {
      assert ErrorFieldsOf(b).value[0].1 == b[1..][..k];
      assert ([(kind, text)] + others)[0].1 == text;
    }
  }

  lemma PrependCancels<T>(x: T, a: seq<T>, b: seq<T>)
    ensures [x] + a == [x] + b <==> a == b
  {
    if [x] + a == [x] + b {
      assert a == ([x] + a)[1..] == ([x] + b)[1..] == b;
    }
  }

  /** An error response carries its severity, code and message to the client exactly when they hold no NUL. */
  lemma ErrorReadsBackExactlyWhen(severity: Bytes, code: Bytes, message: Bytes)
    ensures ErrorFieldsOf(ErrorPayload(severity, code, message))
              == Some([(SEVERITY, severity), (CODE, code), (MESSAGE, message)])
            <==> NulFree(severity) && NulFree(code) && NulFree(message)
  {
    assert ErrorFieldsOf([0]) == Some([]);
    hide ErrorFieldsOf, CString, NulFree, ErrorPayload;
    ErrorPayloadShape(severity, code, message);
    var third, second := [(MESSAGE, message)], [(CODE, code), (MESSAGE, message)];
    var last := [MESSAGE] + (CString(message) + [0]);
    var middle := [CODE] + (CString(code) + last);
    ErrorFieldReadsBack(MESSAGE, message, [0], []);
    ErrorFieldReadsBack(CODE, code, last, third);
    ErrorFieldReadsBack(SEVERITY, severity, middle, second);
    assert third + [] == third && [(CODE, code)] + third == second;
    assert [(SEVERITY, severity)] + second == [(SEVERITY, severity), (CODE, code), (MESSAGE, message)];
  }

  lemma ErrorPayloadShape(severity: Bytes, code: Bytes, message: Bytes)
    ensures ErrorPayload(severity, code, message)
         == [SEVERITY] + (CString(severity) + ([CODE] + (CString(code) + ([MESSAGE] + (CString(message) + [0])))))
  {
    hide CString;
  }
}
