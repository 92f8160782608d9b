/** Line reassembly from a stream cut into chunks at arbitrary places. */
module LineStream {
  import opened WhiteSpace

  const MAX_MESSAGE_LENGTH := 4 * 1024 * 1024

  /** Length in UTF-16 code units, which is what the cap is compared with. */
  function Units(s: string): nat {
    if s == "" then 0 else Units(s[..|s| - 1]) + if s[|s| - 1] as int >= 0x10000 then 2 else 1
  }

  /** The code units of a code point: one, or a surrogate pair. */
  function Utf16(c: char): seq<nat> {
    var u := c as int;
    if u < 0x10000 then [u] else [0xD800 + (u - 0x10000) / 0x400, 0xDC00 + (u - 0x10000) % 0x400]
  }

  function EncodedUtf16(s: string): seq<nat> {
    if s == "" then [] else EncodedUtf16(s[..|s| - 1]) + Utf16(s[|s| - 1])
  }

  /** What the cap is compared with is the number of code units, and a pair of them is told from others. */
  lemma {:induction false} UnitsAreUtf16(s: string)
    ensures Units(s) == |EncodedUtf16(s)|
    ensures s != "" ==> var units := Utf16(s[|s| - 1]);
      && (|units| == 2 <==> 0xD800 <= units[0] < 0xDC00)
      && (|units| == 2 ==> 0xDC00 <= units[1] < 0xE000
                           && s[|s| - 1] as int == 0x10000 + (units[0] - 0xD800) * 0x400 + units[1] - 0xDC00)
  {
    if s != "" {
      UnitsAreUtf16(s[..|s| - 1]);
    }
  }

  function StripCarriageReturn(line: string): string {
    if line != "" && line[|line| - 1] == '\r' then line[..|line| - 1] else line
  }

  /** The index of the first newline, or the length. */
  function FirstNewline(s: string): (i: nat)
    ensures i <= |s|
    ensures forall j :: 0 <= j < i ==> s[j] != '\n'
    ensures i < |s| ==> s[i] == '\n'
  {
    if s == "" || s[0] == '\n' then 0 else 1 + FirstNewline(s[1..])
  }

  /** The complete lines of a text, without their newlines. */
  function Complete(s: string): seq<string>
    decreases |s|
  {
    var i := FirstNewline(s);
    if i == |s| then [] else [s[..i]] + Complete(s[i + 1..])
  }

  /** What follows the last newline. */
  function Remainder(s: string): (r: string)
    ensures forall j :: 0 <= j < |r| ==> r[j] != '\n'
    decreases |s|
  {
    var i := FirstNewline(s);
    if i == |s| then s else Remainder(s[i + 1..])
  }

  /** Lines joined back, each with its newline. */
  function Unlines(lines: seq<string>): string {
    if lines == [] then "" else lines[0] + "\n" + Unlines(lines[1..])
  }

  /** Splitting into lines loses nothing and invents nothing. */
  lemma {:induction false} LinesRejoin(s: string)
    ensures Unlines(Complete(s)) + Remainder(s) == s
    ensures forall l :: l in Complete(s) ==> '\n' !in l
    decreases |s|
  {
    hide FirstNewline;
    var i := FirstNewline(s);
    if i < |s| {
      LinesRejoin(s[i + 1..]);
      assert Complete(s)[1..] == Complete(s[i + 1..]);
      assert s == s[..i] + "\n" + s[i + 1..];
    }
  }

  /** Text arriving after a cut is read as though it had never been cut. */
  lemma {:induction false} CutAnywhere(a: string, b: string)
    ensures Complete(a + b) == Complete(a) + Complete(Remainder(a) + b)
    ensures Remainder(a + b) == Remainder(Remainder(a) + b)
    decreases |a|
  {
    hide FirstNewline;
    var i := FirstNewline(a);
    if i < |a| {
      FirstNewlineUnique(a + b, i);
      assert (a + b)[..i] == a[..i];
      assert (a + b)[i + 1..] == a[i + 1..] + b;
      CutAnywhere(a[i + 1..], b);
    }
  }

  lemma {:induction false} FirstNewlineUnique(s: string, i: nat)
    requires i < |s| && s[i] == '\n' && forall j :: 0 <= j < i ==> s[j] != '\n'
    ensures FirstNewline(s) == i
  {
  }

  function Join(chunks: seq<string>): string {
    if chunks == [] then "" else Join(chunks[..|chunks| - 1]) + chunks[|chunks| - 1]
  }

  /** The lines a reader is handed: stripped of a carriage return, blank ones left out. */
  function Delivered(lines: seq<string>): seq<string> {
    if lines == [] then []
    else
      var line := StripCarriageReturn(lines[|lines| - 1]);
      Delivered(lines[..|lines| - 1]) + if IsBlank(line) then [] else [line]
  }

  lemma {:induction false} DeliveredSplits(a: seq<string>, b: seq<string>)
    ensures Delivered(a + b) == Delivered(a) + Delivered(b)
    decreases |b|
  {
    hide IsBlank, StripCarriageReturn;
    if b == [] {
      assert a + b == a;
    } else {
      DeliveredSplits(a, b[..|b| - 1]);
      assert (a + b)[..|a + b| - 1] == a + b[..|b| - 1];
    }
  }

  lemma DeliveredOne(lines: seq<string>, line: string)
    ensures var stripped := StripCarriageReturn(line);
            Delivered(lines + [line]) == Delivered(lines) + if IsBlank(stripped) then [] else [stripped]
  {
    assert (lines + [line])[..|lines|] == lines;
  }

  lemma Regroup<T>(a: seq<T>, b: seq<T>, c: seq<T>)
    ensures a + (b + c) == (a + b) + c
  {
  }

  lemma {:induction false} CompleteStep(s: string)
    requires FirstNewline(s) < |s|
    ensures Complete(s) == [s[..FirstNewline(s)]] + Complete(s[FirstNewline(s) + 1..])
    ensures Remainder(s) == Remainder(s[FirstNewline(s) + 1..])
  {
  }

  lemma {:induction false} NextLine(s: string, read: seq<string>)
    requires FirstNewline(s) < |s|
    ensures read + Complete(s) == (read + [s[..FirstNewline(s)]]) + Complete(s[FirstNewline(s) + 1..])
  {
    CompleteStep(s);
    Regroup(read, [s[..FirstNewline(s)]], Complete(s[FirstNewline(s) + 1..]));
  }

  datatype PushResult = Lines(lines: seq<string>) | TooLong

  /** One chunk at a time, and the leftover of each kept for the next. */
  class JsonLineDecoder {
    var buffer: string

    constructor ()
      ensures buffer == ""
    {
      buffer := "";
    }

    method Push(chunk: string) returns (r: PushResult)
      modifies this
      ensures var all := old(buffer) + chunk;
              if Units(Remainder(all)) > MAX_MESSAGE_LENGTH
              then r == TooLong && buffer == ""
              else r == Lines(Delivered(Complete(all))) && buffer == Remainder(all)
      ensures '\n' !in buffer
    {
      var all := buffer + chunk;
      buffer := all;
      var lines: seq<string> := [];
      var index := FirstNewline(buffer);
      ghost var read: seq<string> := [];
      while index < |buffer|
        invariant index == FirstNewline(buffer)
        invariant read + Complete(buffer) == Complete(all)
        invariant Remainder(buffer) == Remainder(all)
        invariant lines == Delivered(read)
        decreases |buffer|
      {
        var line := buffer[..index];
        CompleteStep(buffer);
        NextLine(buffer, read);
        DeliveredOne(read, line);
        read := read + [line];
        var stripped := StripCarriageReturn(line);
        if !IsBlank(stripped) {
          lines := lines + [stripped];
        }
        buffer := buffer[index + 1..];
        index := FirstNewline(buffer);
      }
      assert read == Complete(all);
      if Units(buffer) > MAX_MESSAGE_LENGTH {
        buffer := "";
        return TooLong;
      }
      return Lines(lines);
    }

    method Flush() returns (lines: seq<string>)
      modifies this
      ensures lines == Delivered([old(buffer)]) && buffer == ""
    {
      var remainder := StripCarriageReturn(buffer);
      DeliveredOne([], buffer);
      assert [] + [buffer] == [buffer];
      buffer := "";
      lines := if IsBlank(remainder) then [] else [remainder];
    }
  }

  /** No leftover outgrows the cap, wherever the stream is cut. */
  predicate Fits(chunks: seq<string>) {
    chunks == [] || (Fits(chunks[..|chunks| - 1]) && Units(Remainder(Join(chunks))) <= MAX_MESSAGE_LENGTH)
  }

  /** Chunking does not matter: pushing the chunks and then flushing delivers exactly the non-blank
      lines of the whole stream, or fails exactly when some leftover outgrows the cap. */
  method Decode(chunks: seq<string>) returns (lines: seq<string>, failed: bool)
    ensures failed <==> !Fits(chunks)
    ensures !failed ==> lines == Delivered(Complete(Join(chunks)) + [Remainder(Join(chunks))])
  {
    var decoder := new JsonLineDecoder();
    lines, failed := [], false;
    var n := 0;
    while n < |chunks|
      invariant 0 <= n <= |chunks|
      invariant Fits(chunks[..n])
      invariant decoder.buffer == Remainder(Join(chunks[..n]))
      invariant lines == Delivered(Complete(Join(chunks[..n])))
    {
      var so, next := chunks[..n], chunks[..n + 1];
      assert next[..|next| - 1] == so;
      CutAnywhere(Join(so), chunks[n]);
      DeliveredSplits(Complete(Join(so)), Complete(Remainder(Join(so)) + chunks[n]));
      var r := decoder.Push(chunks[n]);
      if r.TooLong? {
        NotFitting(chunks, n + 1);
        return [], true;
      }
      lines := lines + r.lines;
      n := n + 1;
    }
    assert chunks[..|chunks|] == chunks;
    var rest := decoder.Flush();
    DeliveredSplits(Complete(Join(chunks)), [Remainder(Join(chunks))]);
    lines := lines + rest;
  }

  lemma {:induction false} NotFitting(chunks: seq<string>, n: nat)
    requires n <= |chunks| && !Fits(chunks[..n])
    ensures !Fits(chunks)
    decreases |chunks| - n
  {
    if n < |chunks| {
      assert chunks[..n + 1][..n] == chunks[..n];
      NotFitting(chunks, n + 1);
    } else {
      assert chunks[..n] == chunks;
    }
  }

  lemma FramedIsOneLine(message: string)
    requires '\n' !in message
    ensures Complete(message + "\n") == [message] && Remainder(message + "\n") == ""
  {
    var framed := message + "\n";
    FirstNewlineUnique(framed, |message|);
    assert framed[..|message|] == message && framed[|message| + 1..] == "";
  }

  /** A message framed by its newline comes back as itself. */
  lemma FramedMessageIsOneLine(message: string)
    requires '\n' !in message && !IsBlank(message) && message[|message| - 1] != '\r'
    ensures Delivered(Complete(message + "\n")) == [message] && Remainder(message + "\n") == ""
  {
    hide Complete, Remainder, FirstNewline;
    FramedIsOneLine(message);
    DeliveredOne([], message);
    hide Delivered, IsBlank;
    assert [] + [message] == [message];
  }

  /** So it does with the line ending of another platform, and only the last carriage return is part of that. */
  lemma CarriageReturnIsFraming(message: string)
    requires '\n' !in message && !IsBlank(message)
    ensures Delivered(Complete(message + "\r\n")) == [message] && Remainder(message + "\r\n") == ""
  {
    var line := message + "\r";
    assert line + "\n" == message + "\r\n" && line[..|line| - 1] == message;
    hide Complete, Remainder, FirstNewline;
    FramedIsOneLine(line);
    DeliveredOne([], line);
    hide Delivered, IsBlank;
    assert [] + [line] == [line];
  }
}
