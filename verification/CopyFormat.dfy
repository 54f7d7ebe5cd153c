/**
 Reading PostgreSQL's COPY text format (PostgreSQL documentation, COPY, "File
 Formats", "Text Format"), and the numbers and booleans in it.
 */
module CopyFormat {
  import opened Wrappers

  type byte = x: int | 0 <= x < 256

  /** A column value; `None` is NULL. */
  type Field = Option<seq<byte>>

  predicate IsOctal(b: byte) {
    '0' as int <= b <= '7' as int
  }

  function HexValue(b: byte): Option<nat> {
    if '0' as int <= b <= '9' as int then Some(b - '0' as int)
    else if 'A' as int <= b <= 'F' as int then Some(b - 'A' as int + 10)
    else if 'a' as int <= b <= 'f' as int then Some(b - 'a' as int + 10)
    else None
  }

  /** Up to three octal digits, as one byte, and how many were read. */
  function ReadOctal(s: seq<byte>): (r: (byte, nat))
    requires s != [] && IsOctal(s[0])
    ensures 1 <= r.1 <= |s|
  {
    var one: int := s[0] - '0' as int;
    if |s| < 2 || !IsOctal(s[1]) then (one, 1)
    else
      var two: int := one * 8 + (s[1] - '0' as int);
      if |s| < 3 || !IsOctal(s[2]) then (two, 2)
      else
        var three: int := two * 8 + (s[2] - '0' as int);
        (three % 256, 3)
  }

  /** What follows a backslash: the byte it stands for and how many bytes it takes up. */
  function ReadEscape(s: seq<byte>): (r: (byte, nat))
    requires s != []
    ensures 1 <= r.1 <= |s|
  {
    var c := s[0];
    if c == 'b' as int then (8, 1)
    else if c == 'f' as int then (12, 1)
    else if c == 'n' as int then ('\n' as int, 1)
    else if c == 'r' as int then ('\r' as int, 1)
    else if c == 't' as int then ('\t' as int, 1)
    else if c == 'v' as int then (11, 1)
    else if IsOctal(c) then ReadOctal(s)
    else if c == 'x' as int && |s| > 1 && HexValue(s[1]).Some? then
      var high := HexValue(s[1]).value;
      if |s| > 2 && HexValue(s[2]).Some? then ((high * 16 + HexValue(s[2]).value) % 256, 3) else (high, 2)
    else (c, 1)
  }

  datatype Decoded = Row(fields: seq<Field>, rest: seq<byte>) | EndOfData | Malformed

  function FieldOf(raw: seq<byte>, value: seq<byte>): Field {
    if raw == ['\\' as int, 'N' as int] then None else Some(value)
  }

  /** Read fields up to an unescaped newline; `raw` and `value` belong to the field being read. */
  function Scan(s: seq<byte>, raw: seq<byte>, value: seq<byte>, fields: seq<Field>): Decoded
    decreases |s|
  {
    if s == [] then Malformed
    else if s[0] == '\n' as int then Row(fields + [FieldOf(raw, value)], s[1..])
    else if s[0] == '\t' as int then Scan(s[1..], [], [], fields + [FieldOf(raw, value)])
    else if s[0] == '\r' as int then Malformed
    else if s[0] == '\\' as int then
      if |s| < 2 then Malformed
      else
        var (b, n) := ReadEscape(s[1..]);
        Scan(s[1 + n..], raw + s[..1 + n], value + [b], fields)
    else Scan(s[1..], raw + [s[0]], value + [s[0]], fields)
  }

  /** Read one line; a backslash and a period alone on it end the data. */
  function DecodeRow(s: seq<byte>): Decoded {
    if |s| >= 3 && s[0] == '\\' as int && s[1] == '.' as int && s[2] == '\n' as int then EndOfData else Scan(s, [], [], [])
  }

  // ------------------------------------------------------------ column values

  predicate IsDigit(b: byte) {
    '0' as int <= b <= '9' as int
  }

  /** The number these digits spell. */
  function ParseDigits(s: seq<byte>): Option<nat> {
    if s == [] || !IsDigit(s[|s| - 1]) then None
    else if |s| == 1 then Some(s[0] - '0' as int)
    else
      var high := ParseDigits(s[..|s| - 1]);
      if high.None? then None else Some(high.value * 10 + (s[|s| - 1] - '0' as int))
  }

  /** An integer, with a minus sign if it is negative. */
  function ParseInt(s: seq<byte>): Option<int> {
    if s != [] && s[0] == '-' as int then
      var n := ParseDigits(s[1..]);
      if n.None? then None else Some(0 - n.value)
    else
      var n := ParseDigits(s);
      if n.None? then None else Some(n.value)
  }

  function ParseBool(s: seq<byte>): Option<bool> {
    if s == ['t' as int] then Some(true) else if s == ['f' as int] then Some(false) else None
  }

  /** What an integer column holds; nothing is NULL. */
  ghost predicate HoldsInt(f: Field, v: Option<int>) {
    if f.None? then v.None? else v.Some? && ParseInt(f.value) == v
  }

  ghost predicate HoldsBool(f: Field, v: Option<bool>) {
    if f.None? then v.None? else v.Some? && ParseBool(f.value) == v
  }
}
