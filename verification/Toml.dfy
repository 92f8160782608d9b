/** Printing strings, arrays of strings and inline tables of strings as TOML, and a reader of them.

The printers follow adapters/codex/src/index.ts. The reader is written from the sections "String",
"Array" and "Inline Table" of TOML v1.0.0 and knows nothing of the printers: it takes every escape
and every blank the standard allows in these values, and refuses raw control characters, unknown
escapes, escapes that are not Unicode scalar values and repeated keys.
*/
module Toml {
  import opened Optional

  type Entry = (string, string)

  // ----- Printing

  function HexDigit(d: nat): char
    requires d < 16
  {
    "0123456789abcdef"[d]
  }

  function Hex(n: nat): string {
    if n < 16 then [HexDigit(n)] else Hex(n / 16) + [HexDigit(n % 16)]
  }

  function PadStart(s: string, width: nat, fill: char): string
    decreases width - |s|
  {
    if |s| >= width then s else PadStart([fill] + s, width, fill)
  }

  /** One character inside a basic string. */
  function Escape(c: char): string {
    if c == '\\' then "\\\\"
    else if c == '"' then "\\\""
    else if c == '\n' then "\\n"
    else if c == '\r' then "\\r"
    else if c == '\t' then "\\t"
    else if c as int < 0x20 || c as int == 0x7f then "\\u" + PadStart(Hex(c as int), 4, '0')
    else [c]
  }

  function Escaped(value: string): string {
    if value == "" then "" else Escape(value[0]) + Escaped(value[1..])
  }

  function PrintString(value: string): string {
    "\"" + Escaped(value) + "\""
  }

  function Join(parts: seq<string>): string {
    if parts == [] then ""
    else if |parts| == 1 then parts[0]
    else parts[0] + "," + Join(parts[1..])
  }

  function PrintedStrings(values: seq<string>): (r: seq<string>)
    ensures |r| == |values|
  {
    seq(|values|, i requires 0 <= i < |values| => PrintString(values[i]))
  }

  function PrintArray(values: seq<string>): string {
    "[" + Join(PrintedStrings(values)) + "]"
  }

  predicate IsBare(c: char) {
    'A' <= c <= 'Z' || 'a' <= c <= 'z' || '0' <= c <= '9' || c == '_' || c == '-'
  }

  predicate IsBareKey(key: string) {
    key != "" && forall i :: 0 <= i < |key| ==> IsBare(key[i])
  }

  function PrintKey(key: string): string {
    if IsBareKey(key) then key else PrintString(key)
  }

  function PrintEntry(e: Entry): string {
    PrintKey(e.0) + "=" + PrintString(e.1)
  }

  function PrintedEntries(entries: seq<Entry>): (r: seq<string>)
    ensures |r| == |entries|
  {
    seq(|entries|, i requires 0 <= i < |entries| => PrintEntry(entries[i]))
  }

  function PrintTable(entries: seq<Entry>): string {
    "{" + Join(PrintedEntries(entries)) + "}"
  }

  lemma {:induction false} EscapedOne(value: string, c: char)
    ensures Escaped(value + [c]) == Escaped(value) + Escape(c)
  {
    hide Escape;
    if value == "" {
      assert ([c])[1..] == "";
    } else {
      EscapedOne(value[1..], c);
      assert (value + [c])[1..] == value[1..] + [c];
    }
  }

  /** The printer's own loop, one character at a time. */
  method TomlString(value: string) returns (printed: string)
    ensures printed == PrintString(value)
    ensures ReadString(printed) == Some((value, ""))
  {
    var escaped := "";
    for i := 0 to |value|
      invariant escaped == Escaped(value[..i])
    {
      var character := value[i];
      EscapedOne(value[..i], character);
      assert value[..i + 1] == value[..i] + [character];
      if character == '\\' {
        escaped := escaped + "\\\\";
      } else if character == '"' {
        escaped := escaped + "\\\"";
      } else if character == '\n' {
        escaped := escaped + "\\n";
      } else if character == '\r' {
        escaped := escaped + "\\r";
      } else if character == '\t' {
        escaped := escaped + "\\t";
      } else if character as int < 0x20 || character as int == 0x7f {
        escaped := escaped + ("\\u" + PadStart(Hex(character as int), 4, '0'));
      } else {
        escaped := escaped + [character];
      }
    }
    assert value[..|value|] == value;
    printed := "\"" + escaped + "\"";
    StringReadsBack(value, "");
    assert printed + "" == printed;
  }

  // ----- Reading

  predicate IsControl(c: char) {
    (c as int < 0x20 && c != '\t') || c as int == 0x7f
  }

  function HexDigitValue(c: char): Option<nat> {
    if '0' <= c <= '9' then Some(c as int - '0' as int)
    else if 'a' <= c <= 'f' then Some(c as int - 'a' as int + 10)
    else if 'A' <= c <= 'F' then Some(c as int - 'A' as int + 10)
    else None
  }

  function HexValue(s: string): Option<nat> {
    if s == "" then Some(0)
    else
      var high, low := HexValue(s[..|s| - 1]), HexDigitValue(s[|s| - 1]);
      if high.None? || low.None? then None else Some(16 * high.value + low.value)
  }

  predicate IsScalar(n: nat) {
    n < 0xD800 || 0xE000 <= n < 0x11_0000
  }

  function ReadScalar(s: string, digits: nat): (r: Option<(char, string)>)
    ensures r.Some? ==> |r.value.1| <= |s|
  {
    if |s| < digits then None
    else
      var n := HexValue(s[..digits]);
      if n.None? || !IsScalar(n.value) then None else Some((n.value as char, s[digits..]))
  }

  /** What follows a backslash. */
  function ReadEscape(s: string): (r: Option<(char, string)>)
    ensures r.Some? ==> |r.value.1| < |s|
  {
    if s == "" then None
    else match s[0]
      case 'b' => Some((8 as char, s[1..]))
      case 't' => Some(('\t', s[1..]))
      case 'n' => Some(('\n', s[1..]))
      case 'f' => Some((12 as char, s[1..]))
      case 'r' => Some(('\r', s[1..]))
      case '"' => Some(('"', s[1..]))
      case '\\' => Some(('\\', s[1..]))
      case 'u' => ReadScalar(s[1..], 4)
      case 'U' => ReadScalar(s[1..], 8)
      case _ => None
  }

  function ReadChar(s: string): (r: Option<(char, string)>)
    requires s != ""
    ensures r.Some? ==> |r.value.1| < |s|
  {
    if s[0] == '\\' then ReadEscape(s[1..])
    else if IsControl(s[0]) then None
    else Some((s[0], s[1..]))
  }

  /** A basic string after its opening quote. */
  function ReadBody(s: string): (r: Option<(string, string)>)
    ensures r.Some? ==> |r.value.1| < |s|
    decreases |s|
  {
    if s == "" then None
    else if s[0] == '"' then Some(("", s[1..]))
    else
      var c := ReadChar(s);
      if c.None? then None
      else
        var rest := ReadBody(c.value.1);
        if rest.None? then None else Some(([c.value.0] + rest.value.0, rest.value.1))
  }

  function ReadString(s: string): (r: Option<(string, string)>)
    ensures r.Some? ==> |r.value.1| < |s|
  {
    if s == "" || s[0] != '"' then None else ReadBody(s[1..])
  }

  /** Blanks between the parts of a value; line ends too where the standard lets a value span lines. */
  function SkipBlanks(s: string, lines: bool): (r: string)
    ensures |r| <= |s|
    decreases |s|
  {
    if s != "" && (s[0] == ' ' || s[0] == '\t' || (lines && (s[0] == '\n' || s[0] == '\r')))
    then SkipBlanks(s[1..], lines) else s
  }

  /** The elements of an array up to its bracket; a comma may come before the bracket. */
  function ReadElements(s: string): (r: Option<(seq<string>, string)>)
    decreases |s|
  {
    var v := ReadString(s);
    if v.None? then None
    else
      var t := SkipBlanks(v.value.1, true);
      if t == "" then None
      else if t[0] == ']' then Some(([v.value.0], t[1..]))
      else if t[0] != ',' then None
      else
        var u := SkipBlanks(t[1..], true);
        if u != "" && u[0] == ']' then Some(([v.value.0], u[1..]))
        else
          var rest := ReadElements(u);
          if rest.None? then None else Some(([v.value.0] + rest.value.0, rest.value.1))
  }

  function ReadArray(s: string): Option<(seq<string>, string)> {
    if s == "" || s[0] != '[' then None
    else
      var t := SkipBlanks(s[1..], true);
      if t != "" && t[0] == ']' then Some(([], t[1..])) else ReadElements(t)
  }

  function BarePrefix(s: string): (n: nat)
    ensures n <= |s|
  {
    if s == "" || !IsBare(s[0]) then 0 else 1 + BarePrefix(s[1..])
  }

  function ReadBareKey(s: string): Option<(string, string)> {
    var n := BarePrefix(s);
    if n == 0 then None else Some((s[..n], s[n..]))
  }

  function ReadKey(s: string): Option<(string, string)> {
    if s != "" && s[0] == '"' then ReadString(s) else ReadBareKey(s)
  }

  function ReadEntry(s: string): (r: Option<(Entry, string)>)
    ensures r.Some? ==> |r.value.1| < |s|
  {
    var k := ReadKey(s);
    if k.None? then None
    else
      var t := SkipBlanks(k.value.1, false);
      if t == "" || t[0] != '=' then None
      else
        var v := ReadString(SkipBlanks(t[1..], false));
        if v.None? then None else Some(((k.value.0, v.value.0), v.value.1))
  }

  /** The entries of an inline table up to its brace; no comma before the brace, no key twice. */
  function ReadEntries(s: string, taken: set<string>): (r: Option<(seq<Entry>, string)>)
    decreases |s|
  {
    var e := ReadEntry(s);
    if e.None? || e.value.0.0 in taken then None
    else
      var t := SkipBlanks(e.value.1, false);
      if t == "" then None
      else if t[0] == '}' then Some(([e.value.0], t[1..]))
      else if t[0] != ',' then None
      else
        var rest := ReadEntries(SkipBlanks(t[1..], false), taken + {e.value.0.0});
        if rest.None? then None else Some(([e.value.0] + rest.value.0, rest.value.1))
  }

  function ReadTable(s: string): Option<(seq<Entry>, string)> {
    if s == "" || s[0] != '{' then None
    else
      var t := SkipBlanks(s[1..], false);
      if t != "" && t[0] == '}' then Some(([], t[1..])) else ReadEntries(t, {})
  }

  // ----- Reading back what was printed

  lemma HexDigitReadsBack(d: nat)
    requires d < 16
    ensures HexDigitValue(HexDigit(d)) == Some(d)
  {
  }

  lemma ControlHex(code: nat)
    requires code < 0x100
    ensures PadStart(Hex(code), 4, '0') == ['0', '0', HexDigit(code / 16), HexDigit(code % 16)]
  {
    var high, low := HexDigit(code / 16), HexDigit(code % 16);
    if code < 16 {
      PadStartOne([low], 4, '0');
      assert ['0'] + [low] == ['0', low];
    } else {
      assert Hex(code / 16) == [high];
      assert Hex(code) == [high, low];
    }
    assert PadStart([high, low], 4, '0') == ['0', '0', high, low] by {
      PadStartOne([high, low], 4, '0');
      assert ['0'] + [high, low] == ['0', high, low];
      PadStartOne(['0', high, low], 4, '0');
      assert ['0'] + ['0', high, low] == ['0', '0', high, low];
    }
  }

  lemma PadStartOne(s: string, width: nat, fill: char)
    requires |s| < width
    ensures PadStart(s, width, fill) == PadStart([fill] + s, width, fill)
  {
  }

  lemma HexPairReadsBack(high: nat, low: nat)
    requires high < 16 && low < 16
    ensures HexValue(['0', '0', HexDigit(high), HexDigit(low)]) == Some(16 * high + low)
  {
    HexDigitReadsBack(high);
    HexDigitReadsBack(low);
    var s := ['0', '0', HexDigit(high), HexDigit(low)];
    assert s[..3][..2][..1][..0] == "";
    assert s[..3][..2][..1] == ['0'] && HexValue(['0']) == Some(0);
    assert s[..3][..2] == ['0', '0'] && HexValue(['0', '0']) == Some(0);
    assert s[..3] == ['0', '0', HexDigit(high)] && HexValue(s[..3]) == Some(high);
  }

  lemma {:induction false} CharReadsBack(c: char, rest: string)
    ensures Escape(c) + rest != "" && (Escape(c) + rest)[0] != '"'
    ensures ReadChar(Escape(c) + rest) == Some((c, rest))
  {
    var s := Escape(c) + rest;
    if c in "\\\"\n\r\t" {
      assert s[1..][1..] == rest;
    } else if !IsControl(c) {
      assert s[1..] == rest;
    } else {
      var code := c as int;
      ControlHex(code);
      HexPairReadsBack(code / 16, code % 16);
      assert s[1..][1..][..4] == PadStart(Hex(code), 4, '0');
      assert s[1..][1..][4..] == rest;
    }
  }

  lemma {:induction false} BodyReadsBack(value: string, rest: string)
    ensures ReadBody(Escaped(value) + "\"" + rest) == Some((value, rest))
    decreases |value|
  {
    var s := Escaped(value) + "\"" + rest;
    if value == "" {
      assert s[1..] == rest;
    } else {
      var tail := Escaped(value[1..]) + "\"" + rest;
      assert s == Escape(value[0]) + tail;
      CharReadsBack(value[0], tail);
      BodyReadsBack(value[1..], rest);
      assert value == [value[0]] + value[1..];
    }
  }

  /** A printed string reads back as itself, whatever follows it. */
  lemma StringReadsBack(value: string, rest: string)
    ensures ReadString(PrintString(value) + rest) == Some((value, rest))
  {
    BodyReadsBack(value, rest);
    assert (PrintString(value) + rest)[1..] == Escaped(value) + "\"" + rest;
  }

  lemma {:induction false} LastElementReadsBack(v: string, rest: string)
    ensures ReadElements(PrintString(v) + "]" + rest) == Some(([v], rest))
  {
    hide PrintString, ReadString;
    assert PrintString(v) + "]" + rest == PrintString(v) + ("]" + rest);
    StringReadsBack(v, "]" + rest);
    assert ("]" + rest)[1..] == rest;
  }

  lemma {:induction false} ElementReadsBack(v: string, tail: string)
    requires tail != "" && tail[0] == '"'
    ensures var more := ReadElements(tail);
            ReadElements(PrintString(v) + "," + tail)
            == if more.None? then None else Some(([v] + more.value.0, more.value.1))
  {
    hide PrintString, ReadString;
    assert PrintString(v) + "," + tail == PrintString(v) + ("," + tail);
    StringReadsBack(v, "," + tail);
    assert ("," + tail)[1..] == tail;
  }

  lemma {:induction false} JoinFirst(parts: seq<string>, close: string, rest: string)
    requires |parts| > 1
    ensures Join(parts) + close + rest == parts[0] + "," + (Join(parts[1..]) + close + rest)
  {
  }

  lemma {:induction false} PrintedStringsTail(values: seq<string>)
    requires values != []
    ensures PrintedStrings(values)[0] == PrintString(values[0]) != ""
    ensures PrintString(values[0])[0] == '"'
    ensures PrintedStrings(values)[1..] == PrintedStrings(values[1..])
  {
  }

  lemma {:induction false} ElementsReadBack(values: seq<string>, rest: string)
    requires values != []
    ensures ReadElements(Join(PrintedStrings(values)) + "]" + rest) == Some((values, rest))
    decreases |values|
  {
    PrintedStringsTail(values);
    if |values| == 1 {
      LastElementReadsBack(values[0], rest);
      assert values == [values[0]];
    } else {
      ElementsReadBack(values[1..], rest);
      PrintedStringsTail(values[1..]);
      JoinStarts(PrintedStrings(values[1..]));
      ElementReadsBack(values[0], Join(PrintedStrings(values[1..])) + "]" + rest);
      JoinFirst(PrintedStrings(values), "]", rest);
      assert values == [values[0]] + values[1..];
    }
  }

  lemma {:induction false} JoinStarts(parts: seq<string>)
    requires parts != [] && parts[0] != ""
    ensures Join(parts) != "" && Join(parts)[0] == parts[0][0]
  {
  }

  /** A printed array reads back as itself. */
  lemma {:induction false} ArrayReadsBack(values: seq<string>, rest: string)
    ensures ReadArray(PrintArray(values) + rest) == Some((values, rest))
  {
    var s := PrintArray(values) + rest;
    assert s[1..] == Join(PrintedStrings(values)) + "]" + rest;
    if values == [] {
      assert s[1..][1..] == rest;
    } else {
      JoinStarts(PrintedStrings(values));
      ElementsReadBack(values, rest);
    }
  }

  lemma {:induction false} BarePrefixStops(key: string, rest: string)
    requires forall i :: 0 <= i < |key| ==> IsBare(key[i])
    requires rest == "" || !IsBare(rest[0])
    ensures BarePrefix(key + rest) == |key|
    decreases |key|
  {
    if key == "" {
      assert key + rest == rest;
    } else {
      assert (key + rest)[1..] == key[1..] + rest;
      BarePrefixStops(key[1..], rest);
    }
  }

  lemma BareKeyReadsBack(key: string, rest: string)
    requires IsBareKey(key)
    requires rest == "" || !IsBare(rest[0])
    ensures ReadBareKey(key + rest) == Some((key, rest))
    ensures (key + rest)[0] != '"'
  {
    BarePrefixStops(key, rest);
    assert (key + rest)[..|key|] == key && (key + rest)[|key|..] == rest;
  }

  lemma KeyReadsBack(key: string, rest: string)
    requires rest == "" || !IsBare(rest[0])
    ensures ReadKey(PrintKey(key) + rest) == Some((key, rest))
  {
    if IsBareKey(key) {
      BareKeyReadsBack(key, rest);
    } else {
      StringReadsBack(key, rest);
    }
  }

  lemma {:induction false} EntryReadsBack(e: Entry, rest: string)
    ensures ReadEntry(PrintEntry(e) + rest) == Some((e, rest))
    ensures PrintEntry(e) != "" && PrintEntry(e)[0] !in " \t}"
  {
    var value := PrintString(e.1) + rest;
    assert PrintEntry(e) + rest == PrintKey(e.0) + ("=" + value);
    KeyReadsBack(e.0, "=" + value);
    assert ("=" + value)[1..] == value;
    assert value[0] == '"';
    StringReadsBack(e.1, rest);
  }

  ghost predicate DistinctKeys(entries: seq<Entry>) {
    forall i, j :: 0 <= i < j < |entries| ==> entries[i].0 != entries[j].0
  }

  lemma {:induction false} LastOfTableReadsBack(e: Entry, taken: set<string>, rest: string)
    requires e.0 !in taken
    ensures ReadEntries(PrintEntry(e) + "}" + rest, taken) == Some(([e], rest))
  {
    hide PrintEntry, ReadEntry;
    assert PrintEntry(e) + "}" + rest == PrintEntry(e) + ("}" + rest);
    EntryReadsBack(e, "}" + rest);
    assert ("}" + rest)[1..] == rest;
  }

  lemma {:induction false} EntryOfTableReadsBack(e: Entry, taken: set<string>, tail: string)
    requires e.0 !in taken && tail != "" && tail[0] !in " \t"
    ensures var more := ReadEntries(tail, taken + {e.0});
            ReadEntries(PrintEntry(e) + "," + tail, taken)
            == if more.None? then None else Some(([e] + more.value.0, more.value.1))
  {
    hide PrintEntry, ReadEntry;
    assert PrintEntry(e) + "," + tail == PrintEntry(e) + ("," + tail);
    EntryReadsBack(e, "," + tail);
    assert ("," + tail)[1..] == tail;
  }

  lemma {:induction false} EntriesStart(entries: seq<Entry>)
    requires entries != []
    ensures Join(PrintedEntries(entries)) != "" && Join(PrintedEntries(entries))[0] !in " \t}"
  {
    EntryReadsBack(entries[0], "");
    JoinStarts(PrintedEntries(entries));
  }

  lemma PrintedTail(entries: seq<Entry>)
    requires entries != []
    ensures PrintedEntries(entries)[0] == PrintEntry(entries[0])
    ensures PrintedEntries(entries)[1..] == PrintedEntries(entries[1..])
  {
    hide PrintEntry;
  }

  lemma {:induction false} EntriesReadBack(entries: seq<Entry>, taken: set<string>, rest: string)
    requires entries != [] && DistinctKeys(entries)
    requires forall i :: 0 <= i < |entries| ==> entries[i].0 !in taken
    ensures ReadEntries(Join(PrintedEntries(entries)) + "}" + rest, taken) == Some((entries, rest))
    decreases |entries|
  {
    hide PrintEntry, ReadEntry;
    PrintedTail(entries);
    if |entries| == 1 {
      LastOfTableReadsBack(entries[0], taken, rest);
      assert entries == [entries[0]];
    } else {
      EntriesReadBack(entries[1..], taken + {entries[0].0}, rest);
      EntriesStart(entries[1..]);
      EntryOfTableReadsBack(entries[0], taken, Join(PrintedEntries(entries[1..])) + "}" + rest);
      JoinFirst(PrintedEntries(entries), "}", rest);
      assert entries == [entries[0]] + entries[1..];
    }
  }

  /** A printed inline table reads back as itself, in order; the keys of a record are distinct. */
  lemma {:induction false} TableReadsBack(entries: seq<Entry>, rest: string)
    requires DistinctKeys(entries)
    ensures ReadTable(PrintTable(entries) + rest) == Some((entries, rest))
  {
    var s := PrintTable(entries) + rest;
    assert s[1..] == Join(PrintedEntries(entries)) + "}" + rest;
    if entries == [] {
      assert s[1..][1..] == rest;
    } else {
      EntryReadsBack(entries[0], "");
      JoinStarts(PrintedEntries(entries));
      EntriesReadBack(entries, {}, rest);
    }
  }
}
