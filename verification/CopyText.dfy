/**
 Writing rows in PostgreSQL's COPY text format (internal/osm/ingest.go:151-249),
 against the reader for that format in module CopyFormat.
 */
module CopyText {
  import opened Wrappers
  import opened CopyFormat

  const TAB: byte := 9
  const NEWLINE: byte := 10
  const RETURN: byte := 13
  const BACKSLASH: byte := 92
  const LOWER_F: byte := 102
  const LOWER_N: byte := 110
  const LOWER_R: byte := 114
  const LOWER_T: byte := 116
  const UPPER_N: byte := 78

  /** The marker for NULL, compared before escapes are undone. */
  const NULL_TEXT: seq<byte> := [BACKSLASH, UPPER_N]

  // ------------------------------------------------------------------ the writer

  function EscapeByte(c: byte): seq<byte> {
    if c == BACKSLASH then [BACKSLASH, BACKSLASH]
    else if c == TAB then [BACKSLASH, LOWER_T]
    else if c == NEWLINE then [BACKSLASH, LOWER_N]
    else if c == RETURN then [BACKSLASH, LOWER_R]
    else [c]
  }

  function Escape(s: seq<byte>): seq<byte> {
    if s == [] then [] else Escape(s[..|s| - 1]) + EscapeByte(s[|s| - 1])
  }

  function EncodeField(f: Field): seq<byte> {
    if f.None? then NULL_TEXT else Escape(f.value)
  }

  function EncodeFields(fields: seq<Field>): seq<byte> {
    if fields == [] then []
    else if |fields| == 1 then EncodeField(fields[0])
    else EncodeFields(fields[..|fields| - 1]) + [TAB] + EncodeField(fields[|fields| - 1])
  }

  /** Text that needs no escaping: what numbers and booleans are written as. */
  predicate IsPlain(s: seq<byte>) {
    forall i :: 0 <= i < |s| ==> s[i] != BACKSLASH && s[i] != TAB && s[i] != NEWLINE && s[i] != RETURN
  }

  lemma {:induction false} PlainEscapesToItself(s: seq<byte>)
    requires IsPlain(s)
    ensures Escape(s) == s
  {
    if s != [] {
      PlainEscapesToItself(s[..|s| - 1]);
      assert s == s[..|s| - 1] + [s[|s| - 1]];
    }
  }

  /** Decimal digits of a natural number. */
  function Digits(n: nat): seq<byte> {
    if n < 10 then [48 + n] else Digits(n / 10) + [48 + n % 10]
  }

  function FormatInt(v: int): seq<byte> {
    if v < 0 then [45] + Digits(-v) else Digits(v)
  }

  lemma {:induction false} DigitsArePlain(n: nat)
    ensures forall i :: 0 <= i < |Digits(n)| ==> 48 <= Digits(n)[i] <= 57
  {
    if n >= 10 {
      DigitsArePlain(n / 10);
    }
  }

  lemma FormatIntIsPlain(v: int)
    ensures IsPlain(FormatInt(v))
  {
    DigitsArePlain(if v < 0 then -v else v);
  }

  /** One row under construction. */
  class CopyRow {
    var buf: seq<byte>
    var first: bool
    ghost var fields: seq<Field>  // the values written so far

    ghost predicate Valid()
      reads this
    {
      (first <==> fields == []) && buf == EncodeFields(fields)
    }

    constructor ()
      ensures Valid() && fields == []
    {
      buf, first, fields := [], true, [];
    }

    method Reset()
      modifies this
      ensures Valid() && fields == []
    {
      buf, first, fields := [], true, [];
    }

    method Sep()
      modifies this`buf, this`first
      ensures buf == old(buf) + (if old(first) then [] else [TAB]) && !first
    {
      if !first {
        buf := buf + [TAB];
      }
      first := false;
    }

    method WriteEscaped(s: seq<byte>)
      modifies this`buf
      ensures buf == old(buf) + Escape(s)
    {
      for i := 0 to |s|
        invariant buf == old(buf) + Escape(s[..i])
      {
        assert s[..i + 1][..i] == s[..i];
        if s[i] == BACKSLASH {
          buf := buf + [BACKSLASH, BACKSLASH];
        } else if s[i] == TAB {
          buf := buf + [BACKSLASH, LOWER_T];
        } else if s[i] == NEWLINE {
          buf := buf + [BACKSLASH, LOWER_N];
        } else if s[i] == RETURN {
          buf := buf + [BACKSLASH, LOWER_R];
        } else {
          buf := buf + [s[i]];
        }
      }
      assert s[..|s|] == s;
    }

    method Str(s: seq<byte>)
      requires Valid()
      modifies this
      ensures Valid() && fields == old(fields) + [Some(s)]
    {
      Sep();
      WriteEscaped(s);
      fields := fields + [Some(s)];
    }

    method Null()
      requires Valid()
      modifies this
      ensures Valid() && fields == old(fields) + [None]
    {
      Sep();
      buf := buf + NULL_TEXT;
      fields := fields + [None];
    }

    /** An absent name is NULL, which is not the same as the empty string. */
    method StrOrNull(s: seq<byte>)
      requires Valid()
      modifies this
      ensures Valid() && fields == old(fields) + [if s == [] then None else Some(s)]
    {
      if s == [] {
        Null();
        return;
      }
      Str(s);
    }

    /** Numbers and booleans are written without escaping. */
    method Plain(text: seq<byte>)
      requires Valid() && IsPlain(text)
      modifies this
      ensures Valid() && fields == old(fields) + [Some(text)]
    {
      Sep();
      PlainEscapesToItself(text);
      buf := buf + text;
      fields := fields + [Some(text)];
    }

    method Int(v: int)
      requires Valid()
      modifies this
      ensures Valid() && fields == old(fields) + [Some(FormatInt(v))]
      ensures HoldsInt(Some(FormatInt(v)), Some(v))
    {
      FormatIntIsPlain(v);
      IntReadsBack(v);
      Plain(FormatInt(v));
    }

    method OptInt16(v: Option<int>)
      requires Valid()
      modifies this
      ensures Valid() && |fields| == |old(fields)| + 1 && fields[..|old(fields)|] == old(fields)
      ensures HoldsInt(fields[|fields| - 1], v)
    {
      if v.None? {
        Null();
        return;
      }
      Int(v.value);
    }

    method OptBool(v: Option<bool>)
      requires Valid()
      modifies this
      ensures Valid() && |fields| == |old(fields)| + 1 && fields[..|old(fields)|] == old(fields)
      ensures HoldsBool(fields[|fields| - 1], v)
    {
      if v.None? {
        Null();
        return;
      }
      Plain(if v.value then [LOWER_T] else [LOWER_F]);
    }

    /** Terminate the row: reading it back yields exactly the fields written. */
    method Finish() returns (row: seq<byte>)
      requires Valid() && fields != []
      modifies this`buf
      ensures row == buf == EncodeFields(fields) + [NEWLINE]
      ensures DecodeRow(row) == Row(fields, [])
    {
      RowRoundTrip(fields);
      buf := buf + [NEWLINE];
      row := buf;
    }
  }

  // ------------------------------------------------------------------ round trip

  lemma ScanByte(c: byte, rest: seq<byte>, raw: seq<byte>, value: seq<byte>, fields: seq<Field>)
    ensures Scan(EscapeByte(c) + rest, raw, value, fields) == Scan(rest, raw + EscapeByte(c), value + [c], fields)
  {
    var s := EscapeByte(c) + rest;
    assert s[|EscapeByte(c)|..] == rest && s[..|EscapeByte(c)|] == EscapeByte(c);
    if |EscapeByte(c)| == 2 {
      assert s[1..][0] == EscapeByte(c)[1];
    }
  }

  /** Reading an escaped string yields the string. */
  lemma {:induction false} ScanEscaped(v: seq<byte>, rest: seq<byte>, raw: seq<byte>, value: seq<byte>, fields: seq<Field>)
    ensures Scan(Escape(v) + rest, raw, value, fields) == Scan(rest, raw + Escape(v), value + v, fields)
  {
    if v == [] {
      assert Escape(v) + rest == rest && raw + Escape(v) == raw && value + v == value;
    } else {
      var init, c := v[..|v| - 1], v[|v| - 1];
      assert Escape(v) + rest == Escape(init) + (EscapeByte(c) + rest);
      ScanEscaped(init, EscapeByte(c) + rest, raw, value, fields);
      ScanByte(c, rest, raw + Escape(init), value + init, fields);
      assert (raw + Escape(init)) + EscapeByte(c) == raw + Escape(v) && (value + init) + [c] == value + v;
    }
  }

  /** A backslash at the head of an escaped string starts one of the four escapes, so no string reads as NULL or ends the data. */
  lemma {:induction false} EscapeHead(v: seq<byte>)
    requires Escape(v) != [] && Escape(v)[0] == BACKSLASH
    ensures |Escape(v)| >= 2 && Escape(v)[1] in {BACKSLASH, LOWER_T, LOWER_N, LOWER_R}
  {
    var init := v[..|v| - 1];
    if init != [] {
      assert Escape(init) != [];
      EscapeHead(init);
    }
  }

  /** The text a field leaves behind while it is read. */
  function ValueText(f: Field): seq<byte> {
    if f.None? then [UPPER_N] else f.value
  }

  lemma ScanField(f: Field, rest: seq<byte>, fields: seq<Field>)
    ensures Scan(EncodeField(f) + rest, [], [], fields) == Scan(rest, EncodeField(f), ValueText(f), fields)
    ensures FieldOf(EncodeField(f), ValueText(f)) == f
  {
    match f
    case None =>
      var s := NULL_TEXT + rest;
      assert s[1..][0] == UPPER_N && s[2..] == rest && s[..2] == NULL_TEXT;
      assert [] + s[..2] == NULL_TEXT && [] + [UPPER_N] == [UPPER_N];
      assert ReadEscape(s[1..]) == (UPPER_N, 1);
    case Some(v) =>
      ScanEscaped(v, rest, [], [], fields);
      assert [] + Escape(v) == Escape(v) && [] + v == v;
      if Escape(v) == NULL_TEXT {
        EscapeHead(v);
      }
  }

  lemma Regroup(a: seq<byte>, sep: byte, b: seq<byte>, rest: seq<byte>)
    ensures a + [sep] + b + rest == a + ([sep] + (b + rest))
  {
  }

  /** A tab ends the last field. */
  lemma ScanSeparator(fs: seq<Field>, rest: seq<byte>)
    requires fs != []
    ensures var f := fs[|fs| - 1];
            Scan([TAB] + rest, EncodeField(f), ValueText(f), fs[..|fs| - 1]) == Scan(rest, [], [], fs)
  {
    ScanField(fs[|fs| - 1], rest, []);
    assert ([TAB] + rest)[1..] == rest;
    assert fs[..|fs| - 1] + [fs[|fs| - 1]] == fs;
  }

  lemma {:induction false} ScanFields(fs: seq<Field>, rest: seq<byte>)
    requires fs != []
    ensures Scan(EncodeFields(fs) + rest, [], [], []) ==
            Scan(rest, EncodeField(fs[|fs| - 1]), ValueText(fs[|fs| - 1]), fs[..|fs| - 1])
  {
    var f := fs[|fs| - 1];
    if |fs| == 1 {
      ScanField(f, rest, []);
    } else {
      var init := fs[..|fs| - 1];
      Regroup(EncodeFields(init), TAB, EncodeField(f), rest);
      ScanFields(init, [TAB] + (EncodeField(f) + rest));
      ScanSeparator(init, EncodeField(f) + rest);
      ScanField(f, rest, init);
    }
  }

  lemma {:induction false} EncodedHead(fs: seq<Field>)
    requires EncodeFields(fs) != [] && EncodeFields(fs)[0] == BACKSLASH
    ensures |EncodeFields(fs)| >= 2 && EncodeFields(fs)[1] in {BACKSLASH, LOWER_T, LOWER_N, LOWER_R, UPPER_N}
  {
    if |fs| == 1 {
      if fs[0].Some? {
        EscapeHead(fs[0].value);
      }
    } else {
      var init := fs[..|fs| - 1];
      if EncodeFields(init) != [] {
        EncodedHead(init);
      }
    }
  }

  lemma ScanRow(fs: seq<Field>)
    requires fs != []
    ensures Scan(EncodeFields(fs) + [NEWLINE], [], [], []) == Row(fs, [])
  {
    var f := fs[|fs| - 1];
    ScanFields(fs, [NEWLINE]);
    ScanField(f, [], []);
    assert fs[..|fs| - 1] + [f] == fs;
  }

  /** No row is taken for the mark that ends the data. */
  lemma NotTheEnd(fs: seq<Field>)
    ensures DecodeRow(EncodeFields(fs) + [NEWLINE]) == Scan(EncodeFields(fs) + [NEWLINE], [], [], [])
  {
    if EncodeFields(fs) != [] && EncodeFields(fs)[0] == BACKSLASH {
      EncodedHead(fs);
    }
  }

  /** Decoding a finished row yields exactly the fields written, NULL kept apart from every string. */
  lemma RowRoundTrip(fs: seq<Field>)
    requires fs != []
    ensures DecodeRow(EncodeFields(fs) + [NEWLINE]) == Row(fs, [])
  {
    ScanRow(fs);
    NotTheEnd(fs);
  }

  /** Different rows are written differently. */
  lemma EncodingIsInjective(fs: seq<Field>, gs: seq<Field>)
    requires fs != [] && gs != [] && EncodeFields(fs) == EncodeFields(gs)
    ensures fs == gs
  {
    RowRoundTrip(fs);
    RowRoundTrip(gs);
  }

  /** No field contains a raw tab, newline or carriage return, so columns and rows cannot shift. */
  lemma {:induction false} EscapedIsClean(v: seq<byte>)
    ensures TAB !in Escape(v) && NEWLINE !in Escape(v) && RETURN !in Escape(v)
  {
    if v != [] {
      EscapedIsClean(v[..|v| - 1]);
    }
  }

  // ------------------------------------------------------- integers and booleans

  /** The digits written for a number spell that number. */
  lemma {:induction false} DigitsSpell(n: nat)
    ensures ParseDigits(Digits(n)) == Some(n)
  {
    if n >= 10 {
      DigitsSpell(n / 10);
      assert Digits(n)[..|Digits(n)| - 1] == Digits(n / 10);
    }
  }

  /** Every integer reads back as itself, sign and all. */
  lemma IntReadsBack(v: int)
    ensures ParseInt(FormatInt(v)) == Some(v)
  {
    if v < 0 {
      DigitsSpell(-v);
      assert FormatInt(v)[1..] == Digits(-v);
    } else {
      DigitsSpell(v);
      DigitsArePlain(v);
    }
  }
}
