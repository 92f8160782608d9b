/** Cutting a prompt into argv words no longer than the platform allows.

Text is a sequence of code points; sizes are UTF-8 bytes.
*/
module PromptSplit {
  const MAX_ARGUMENT_BYTES := 96 * 1024

  function Width(c: char): (w: nat)
    ensures 1 <= w <= 4
  {
    var u := c as int;
    if u < 0x80 then 1 else if u < 0x800 then 2 else if u < 0x10000 then 3 else 4
  }

  function Bytes(s: string): nat {
    if s == "" then 0 else Bytes(s[..|s| - 1]) + Width(s[|s| - 1])
  }

  /** The bytes of a code point. */
  function Utf8(c: char): seq<nat> {
    var u := c as int;
    if u < 0x80 then [u]
    else if u < 0x800 then [0xC0 + u / 64, 0x80 + u % 64]
    else if u < 0x10000 then [0xE0 + u / 4096, 0x80 + u / 64 % 64, 0x80 + u % 64]
    else [0xF0 + u / 262144, 0x80 + u / 4096 % 64, 0x80 + u / 64 % 64, 0x80 + u % 64]
  }

  /** Reads one code point; the first byte tells how many there are. */
  function ReadUtf8(bytes: seq<nat>): (int, seq<nat>)
    requires bytes != []
    requires |bytes| >= if bytes[0] < 0x80 then 1 else if bytes[0] < 0xE0 then 2 else if bytes[0] < 0xF0 then 3 else 4
  {
    var b := bytes[0];
    if b < 0x80 then (b, bytes[1..])
    else if b < 0xE0 then ((b - 0xC0) * 64 + bytes[1] - 0x80, bytes[2..])
    else if b < 0xF0 then ((b - 0xE0) * 4096 + (bytes[1] - 0x80) * 64 + bytes[2] - 0x80, bytes[3..])
    else ((b - 0xF0) * 262144 + (bytes[1] - 0x80) * 4096 + (bytes[2] - 0x80) * 64 + bytes[3] - 0x80, bytes[4..])
  }

  /** The width is that of the bytes, which are bytes and read back as the code point. */
  lemma Utf8ReadsBack(c: char, rest: seq<nat>)
    ensures |Utf8(c)| == Width(c) && forall i :: 0 <= i < |Utf8(c)| ==> Utf8(c)[i] < 256
    ensures Utf8(c) != [] && |Utf8(c)| == if Utf8(c)[0] < 0x80 then 1 else if Utf8(c)[0] < 0xE0 then 2
                                          else if Utf8(c)[0] < 0xF0 then 3 else 4
    ensures ReadUtf8(Utf8(c) + rest) == (c as int, rest)
  {
    var u := c as int;
    assert u == (u / 64) * 64 + u % 64;
    assert u / 64 == (u / 4096) * 64 + u / 64 % 64;
    assert u / 4096 == (u / 262144) * 64 + u / 4096 % 64;
    assert (Utf8(c) + rest)[|Utf8(c)|..] == rest;
  }

  function Encoded(s: string): seq<nat> {
    if s == "" then [] else Encoded(s[..|s| - 1]) + Utf8(s[|s| - 1])
  }

  /** What is measured is the number of bytes of the text. */
  lemma {:induction false} BytesAreUtf8(s: string)
    ensures Bytes(s) == |Encoded(s)|
  {
    if s != "" {
      BytesAreUtf8(s[..|s| - 1]);
      Utf8ReadsBack(s[|s| - 1], []);
    }
  }

  /** The words with one space between each two. */
  function JoinWithSpaces(chunks: seq<string>): string {
    if chunks == [] then ""
    else if |chunks| == 1 then chunks[0]
    else JoinWithSpaces(chunks[..|chunks| - 1]) + " " + chunks[|chunks| - 1]
  }

  /** The words put back with a space exactly where one was consumed. */
  function Rejoin(chunks: seq<string>, consumed: seq<bool>): string
    requires |consumed| + 1 == |chunks|
  {
    if |chunks| == 1 then chunks[0]
    else
      Rejoin(chunks[..|chunks| - 1], consumed[..|consumed| - 1])
      + (if consumed[|consumed| - 1] then " " else "")
      + chunks[|chunks| - 1]
  }

  predicate SpaceFree(s: string) {
    forall i :: 0 <= i < |s| ==> s[i] != ' '
  }

  lemma {:induction false} BytesSplit(a: string, b: string)
    ensures Bytes(a + b) == Bytes(a) + Bytes(b)
  {
    if b == "" {
      assert a + b == a;
    } else {
      BytesSplit(a, b[..|b| - 1]);
      assert (a + b)[..|a + b| - 1] == a + b[..|b| - 1];
    }
  }

  lemma BytesOne(s: string, start: nat, index: nat)
    requires start <= index < |s|
    ensures Bytes(s[start..index + 1]) == Bytes(s[start..index]) + Width(s[index])
  {
    assert s[start..index + 1][..index - start] == s[start..index];
  }

  lemma BytesBetween(s: string, i: nat, j: nat, k: nat)
    requires i <= j <= k <= |s|
    ensures Bytes(s[i..k]) == Bytes(s[i..j]) + Bytes(s[j..k])
  {
    assert s[i..k] == s[i..j] + s[j..k];
    BytesSplit(s[i..j], s[j..k]);
  }

  /** A cutting of a prefix: the words so far, whether each cut consumed a space, and where the next
      word starts. A cut that consumed a space left room for it. */
  ghost predicate CutsPrefix(prompt: string, chunks: seq<string>, consumed: seq<bool>, start: nat) {
    && start <= |prompt| && |consumed| == |chunks|
    && (forall i :: 0 <= i < |chunks| ==> Bytes(chunks[i]) + (if consumed[i] then 1 else 0) <= MAX_ARGUMENT_BYTES)
    && Glued(chunks, consumed) == prompt[..start]
  }

  /** The words so far, each followed by the space its cut consumed. */
  function Glued(chunks: seq<string>, consumed: seq<bool>): string
    requires |consumed| == |chunks|
  {
    if chunks == [] then ""
    else
      Glued(chunks[..|chunks| - 1], consumed[..|consumed| - 1])
      + chunks[|chunks| - 1]
      + (if consumed[|consumed| - 1] then " " else "")
  }

  lemma GluedOne(chunks: seq<string>, consumed: seq<bool>, chunk: string, space: bool)
    requires |consumed| == |chunks|
    ensures Glued(chunks + [chunk], consumed + [space])
            == Glued(chunks, consumed) + chunk + (if space then " " else "")
  {
    assert (chunks + [chunk])[..|chunks|] == chunks && (consumed + [space])[..|consumed|] == consumed;
  }

  /** Each space-free stretch fits in a word, with room for the space after it unless the prompt ends there. */
  ghost predicate Spaced(prompt: string) {
    forall i, j :: Stretch(prompt, i, j)
      ==> Bytes(prompt[i..j]) + (if j < |prompt| then 1 else 0) <= MAX_ARGUMENT_BYTES
  }

  /** A stretch of the prompt without a space in it. */
  predicate Stretch(prompt: string, i: int, j: int) {
    0 <= i <= j <= |prompt| && SpaceFree(prompt[i..j])
  }

  predicate AllConsumed(consumed: seq<bool>) {
    forall i :: 0 <= i < |consumed| ==> consumed[i]
  }

  /** The same, for the stretches that end before the next word. */
  ghost predicate SpacedBefore(prompt: string, start: nat)
    requires start <= |prompt|
  {
    && (start > 0 ==> prompt[start - 1] == ' ')
    && (forall i, j :: Stretch(prompt, i, j) && j < start ==> Bytes(prompt[i..j]) + 1 <= MAX_ARGUMENT_BYTES)
  }

  /** A stretch inside a word is no longer than the word. */
  lemma Within(prompt: string, start: nat, i: nat, j: nat, end: nat)
    requires start <= i <= j <= end <= |prompt|
    ensures Bytes(prompt[i..j]) + (if j < end then 1 else 0) <= Bytes(prompt[start..end])
  {
    BytesBetween(prompt, start, i, end);
    BytesBetween(prompt, i, j, end);
    if j < end {
      BytesOne(prompt, j, j);
      BytesBetween(prompt, j, j + 1, end);
    }
  }

  /** A stretch that crosses the space before a word is not space-free. */
  lemma NotAcross(prompt: string, start: nat, i: nat, j: nat)
    requires i < start <= j <= |prompt| && prompt[start - 1] == ' '
    ensures !SpaceFree(prompt[i..j])
  {
    assert prompt[i..j][start - 1 - i] == ' ';
  }

  lemma ConsumingKeepsSpaced(prompt: string, start: nat, space: nat)
    requires start <= space < |prompt| && prompt[space] == ' '
    requires SpacedBefore(prompt, start) && Bytes(prompt[start..space]) + 1 <= MAX_ARGUMENT_BYTES
    ensures SpacedBefore(prompt, space + 1)
  {
    forall i, j | Stretch(prompt, i, j) && j < space + 1
      ensures Bytes(prompt[i..j]) + 1 <= MAX_ARGUMENT_BYTES
    {
      if j >= start {
        if i < start {
          NotAcross(prompt, start, i, j);
        } else {
          Within(prompt, start, i, j, space);
        }
      }
    }
  }

  lemma LastWordKeepsSpaced(prompt: string, start: nat)
    requires start <= |prompt| && SpacedBefore(prompt, start) && Bytes(prompt[start..]) <= MAX_ARGUMENT_BYTES
    ensures Spaced(prompt)
  {
    assert prompt[start..] == prompt[start..|prompt|];
    forall i, j | Stretch(prompt, i, j)
      ensures Bytes(prompt[i..j]) + (if j < |prompt| then 1 else 0) <= MAX_ARGUMENT_BYTES
    {
      if j >= start {
        if i < start {
          NotAcross(prompt, start, i, j);
        } else {
          Within(prompt, start, i, j, |prompt|);
        }
      }
    }
  }

  /** A cut that finds no space in the way shows the prompt is not spaced. */
  lemma ForcedCut(prompt: string, start: nat, index: nat)
    requires index < |prompt| && Stretch(prompt, start, index)
    requires Bytes(prompt[start..index]) + Width(prompt[index]) > MAX_ARGUMENT_BYTES
    ensures !Spaced(prompt)
  {
    if prompt[index] != ' ' {
      BytesOne(prompt, start, index);
      assert prompt[start..index + 1] == prompt[start..index] + [prompt[index]];
      assert Stretch(prompt, start, index + 1);
    } else {
      assert Stretch(prompt, start, index);
    }
  }

  lemma {:induction false} RejoinIsGlued(chunks: seq<string>, consumed: seq<bool>, last: string)
    requires |consumed| == |chunks|
    ensures Rejoin(chunks + [last], consumed) == Glued(chunks, consumed) + last
  {
    var all := chunks + [last];
    if chunks == [] {
      assert Glued(chunks, consumed) + last == last;
    } else {
      assert all[..|all| - 1] == chunks;
      RejoinIsGlued(chunks[..|chunks| - 1], consumed[..|consumed| - 1], chunks[|chunks| - 1]);
      assert chunks[..|chunks| - 1] + [chunks[|chunks| - 1]] == chunks;
    }
  }

  function Unspaced(consumed: seq<bool>): nat {
    if consumed == [] then 0
    else Unspaced(consumed[..|consumed| - 1]) + if consumed[|consumed| - 1] then 0 else 1
  }

  /** Joining with spaces is the prompt itself exactly when every cut consumed one. */
  lemma {:induction false} JoinsBackIff(chunks: seq<string>, consumed: seq<bool>)
    requires |consumed| + 1 == |chunks|
    ensures |JoinWithSpaces(chunks)| == |Rejoin(chunks, consumed)| + Unspaced(consumed)
    ensures AllConsumed(consumed) <==> Unspaced(consumed) == 0
    ensures JoinWithSpaces(chunks) == Rejoin(chunks, consumed) <==> AllConsumed(consumed)
  {
    if consumed != [] {
      JoinsBackIff(chunks[..|chunks| - 1], consumed[..|consumed| - 1]);
    }
  }

  lemma StretchOne(prompt: string, i: nat, j: nat)
    requires Stretch(prompt, i, j) && j < |prompt|
    ensures prompt[i..j + 1] == prompt[i..j] + [prompt[j]]
    ensures if prompt[j] == ' ' then Stretch(prompt, j + 1, j + 1) else Stretch(prompt, i, j + 1)
    ensures Stretch(prompt, j, j)
  {
  }

  /** No cut is made before it has to be: each word, with the space after it and what follows that up to
      the next space, would have been too long. */
  ghost predicate Greedy(prompt: string, chunks: seq<string>, consumed: seq<bool>)
    requires |consumed| == |chunks|
  {
    chunks == [] ||
    var last := |chunks| - 1;
    && Greedy(prompt, chunks[..last], consumed[..last])
    && Overfull(prompt, |Glued(chunks[..last], consumed[..last])|, |Glued(chunks, consumed)|)
  }

  ghost predicate Overfull(prompt: string, from: nat, to: nat) {
    exists m :: from <= to <= m < |prompt| && Stretch(prompt, to, m) && Bytes(prompt[from..m + 1]) > MAX_ARGUMENT_BYTES
  }

  lemma GreedyOne(prompt: string, chunks: seq<string>, consumed: seq<bool>, start: nat, chunk: string, space: bool, next: nat,
                  index: nat)
    requires CutsPrefix(prompt, chunks, consumed, start) && Greedy(prompt, chunks, consumed)
    requires start <= next <= index < |prompt| && Stretch(prompt, next, index)
    requires Bytes(prompt[start..index + 1]) > MAX_ARGUMENT_BYTES && |chunk| + (if space then 1 else 0) == next - start
    ensures Greedy(prompt, chunks + [chunk], consumed + [space])
  {
    hide Bytes, Stretch;
    GluedOne(chunks, consumed, chunk, space);
    assert (chunks + [chunk])[..|chunks|] == chunks && (consumed + [space])[..|consumed|] == consumed;
    assert Overfull(prompt, start, next);
  }

  /** What holds between two cuts. */
  ghost predicate CutState(prompt: string, chunks: seq<string>, consumed: seq<bool>, start: nat) {
    && CutsPrefix(prompt, chunks, consumed, start) && Greedy(prompt, chunks, consumed)
    && (Spaced(prompt) ==> AllConsumed(consumed))
    && (AllConsumed(consumed) ==> SpacedBefore(prompt, start))
  }

  lemma PrefixOne(prompt: string, chunks: seq<string>, consumed: seq<bool>, start: nat, chunk: string, space: bool, next: nat)
    requires CutsPrefix(prompt, chunks, consumed, start) && start <= next <= |prompt|
    requires prompt[start..next] == chunk + (if space then " " else "")
    requires Bytes(chunk) + (if space then 1 else 0) <= MAX_ARGUMENT_BYTES
    ensures CutsPrefix(prompt, chunks + [chunk], consumed + [space], next)
  {
    hide Bytes;
    GluedOne(chunks, consumed, chunk, space);
    hide Glued;
    assert prompt[..next] == prompt[..start] + prompt[start..next];
    assert forall i :: 0 <= i < |chunks| ==> (consumed + [space])[i] == consumed[i];
  }

  lemma SpaceLeavesRoom(prompt: string, start: nat, space: nat, index: nat)
    requires start <= space < index < |prompt| && prompt[space] == ' '
    requires Bytes(prompt[start..index]) <= MAX_ARGUMENT_BYTES < Bytes(prompt[start..index]) + Width(prompt[index])
    ensures Bytes(prompt[start..space]) + 1 <= MAX_ARGUMENT_BYTES < Bytes(prompt[start..index + 1])
    ensures Bytes(prompt[space + 1..index]) < MAX_ARGUMENT_BYTES
    ensures prompt[start..space + 1] == prompt[start..space] + " "
  {
    BytesBetween(prompt, start, space, index);
    BytesBetween(prompt, space, space + 1, index);
    BytesOne(prompt, space, space);
    BytesOne(prompt, start, index);
  }

  lemma ConsumedOne(consumed: seq<bool>, space: bool)
    ensures AllConsumed(consumed + [space]) <==> AllConsumed(consumed) && space
  {
    assert forall i :: 0 <= i < |consumed| ==> (consumed + [space])[i] == consumed[i];
    assert (consumed + [space])[|consumed|] == space;
  }

  lemma CutAtSpace(prompt: string, chunks: seq<string>, consumed: seq<bool>, start: nat, space: nat, index: nat)
    requires CutState(prompt, chunks, consumed, start)
    requires start <= space < index < |prompt| && prompt[space] == ' ' && Stretch(prompt, space + 1, index)
    requires Bytes(prompt[start..index]) <= MAX_ARGUMENT_BYTES < Bytes(prompt[start..index]) + Width(prompt[index])
    ensures CutState(prompt, chunks + [prompt[start..space]], consumed + [true], space + 1)
    ensures Bytes(prompt[space + 1..index]) < MAX_ARGUMENT_BYTES
  {
    hide Bytes, Stretch, Greedy, SpacedBefore, CutsPrefix, Spaced, AllConsumed;
    SpaceLeavesRoom(prompt, start, space, index);
    GreedyOne(prompt, chunks, consumed, start, prompt[start..space], true, space + 1, index);
    PrefixOne(prompt, chunks, consumed, start, prompt[start..space], true, space + 1);
    ConsumedOne(consumed, true);
    if AllConsumed(consumed) {
      ConsumingKeepsSpaced(prompt, start, space);
    }
  }

  lemma CutWithoutSpace(prompt: string, chunks: seq<string>, consumed: seq<bool>, start: nat, index: nat)
    requires CutState(prompt, chunks, consumed, start)
    requires index < |prompt| && Stretch(prompt, start, index)
    requires Bytes(prompt[start..index]) <= MAX_ARGUMENT_BYTES < Bytes(prompt[start..index]) + Width(prompt[index])
    ensures CutState(prompt, chunks + [prompt[start..index]], consumed + [false], index)
  {
    ForcedCut(prompt, start, index);
    BytesOne(prompt, start, index);
    assert Stretch(prompt, index, index);
    hide Bytes, Stretch, Greedy, SpacedBefore, CutsPrefix, Spaced, AllConsumed;
    GreedyOne(prompt, chunks, consumed, start, prompt[start..index], false, index, index);
    PrefixOne(prompt, chunks, consumed, start, prompt[start..index], false, index);
    ConsumedOne(consumed, false);
  }

  /** What holds between two characters of the scan. */
  ghost predicate Scanned(prompt: string, chunks: seq<string>, consumed: seq<bool>, start: nat, index: nat,
                          bytes: nat, lastSpace: int)
  {
    && start <= index <= |prompt|
    && CutState(prompt, chunks, consumed, start)
    && bytes == Bytes(prompt[start..index]) <= MAX_ARGUMENT_BYTES
    && (lastSpace == -1 || (start <= lastSpace < index && prompt[lastSpace] == ' '))
    && Stretch(prompt, if lastSpace == -1 then start else lastSpace + 1, index)
  }

  lemma ScanStarts(prompt: string)
    ensures Scanned(prompt, [], [], 0, 0, 0, -1)
  {
  }

  lemma ScanAdvances(prompt: string, chunks: seq<string>, consumed: seq<bool>, start: nat, index: nat, bytes: nat,
                     lastSpace: int)
    requires index < |prompt| && Scanned(prompt, chunks, consumed, start, index, bytes, lastSpace)
    requires bytes + Width(prompt[index]) <= MAX_ARGUMENT_BYTES
    ensures Scanned(prompt, chunks, consumed, start, index + 1, bytes + Width(prompt[index]),
                    if prompt[index] == ' ' then index else lastSpace)
  {
    BytesOne(prompt, start, index);
    StretchOne(prompt, if lastSpace == -1 then start else lastSpace + 1, index);
  }

  /** The overflow branch: cut at the last space if there is one, and where the text stands if that
      does not make room. */
  method Cut(prompt: string, so: seq<string>, ghost were: seq<bool>, from: nat, index: nat, held: nat, lastSpace: int)
    returns (chunks: seq<string>, ghost consumed: seq<bool>, start: nat, bytes: nat)
    requires index < |prompt| && Scanned(prompt, so, were, from, index, held, lastSpace)
    requires held + Width(prompt[index]) > MAX_ARGUMENT_BYTES
    ensures Scanned(prompt, chunks, consumed, start, index, bytes, -1)
    ensures bytes + Width(prompt[index]) <= MAX_ARGUMENT_BYTES
  {
    if lastSpace >= from {
      CutAtSpace(prompt, so, were, from, lastSpace, index);
      chunks, consumed := so + [prompt[from..lastSpace]], were + [true];
      start := lastSpace + 1;
      bytes := Bytes(prompt[start..index]);
      if bytes + Width(prompt[index]) > MAX_ARGUMENT_BYTES {
        CutWithoutSpace(prompt, chunks, consumed, start, index);
        chunks, consumed := chunks + [prompt[start..index]], consumed + [false];
        start, bytes := index, 0;
      }
    } else {
      CutWithoutSpace(prompt, so, were, from, index);
      chunks, consumed := so + [prompt[from..index]], were + [false];
      start, bytes := index, 0;
    }
  }

  /** What the words of a prompt owe it: none too long, nothing lost, nothing added, and joined back
      with spaces they are the prompt exactly when its space-free stretches allow it. */
  ghost predicate Cutting(prompt: string, chunks: seq<string>, consumed: seq<bool>) {
    && |chunks| == |consumed| + 1
    && (forall i :: 0 <= i < |chunks| ==> Bytes(chunks[i]) <= MAX_ARGUMENT_BYTES)
    && Rejoin(chunks, consumed) == prompt
    && (JoinWithSpaces(chunks) == prompt <==> Spaced(prompt))
    && Greedy(prompt, chunks[..|consumed|], consumed)
  }

  lemma Finish(prompt: string, chunks: seq<string>, consumed: seq<bool>, start: nat)
    requires CutState(prompt, chunks, consumed, start) && Bytes(prompt[start..]) <= MAX_ARGUMENT_BYTES
    ensures Cutting(prompt, chunks + [prompt[start..]], consumed)
  {
    RejoinIsGlued(chunks, consumed, prompt[start..]);
    assert (chunks + [prompt[start..]])[..|consumed|] == chunks;
    assert prompt[..start] + prompt[start..] == prompt;
    JoinsBackIff(chunks + [prompt[start..]], consumed);
    if AllConsumed(consumed) {
      LastWordKeepsSpaced(prompt, start);
    }
  }

  lemma ScanEnds(prompt: string, chunks: seq<string>, consumed: seq<bool>, start: nat, bytes: nat, lastSpace: int)
    requires Scanned(prompt, chunks, consumed, start, |prompt|, bytes, lastSpace)
    ensures start <= |prompt| && Cutting(prompt, chunks + [prompt[start..]], consumed)
  {
    assert prompt[start..|prompt|] == prompt[start..];
    Finish(prompt, chunks, consumed, start);
  }

  lemma ShortPromptIsOneWord(prompt: string)
    requires Bytes(prompt) <= MAX_ARGUMENT_BYTES
    ensures Cutting(prompt, [prompt], [])
  {
    assert prompt[0..] == prompt;
    LastWordKeepsSpaced(prompt, 0);
  }

  /** One character of the scan. */
  method Advance(prompt: string, so: seq<string>, ghost were: seq<bool>, from: nat, index: nat, held: nat, last: int)
    returns (chunks: seq<string>, ghost consumed: seq<bool>, start: nat, bytes: nat, lastSpace: int)
    requires index < |prompt| && Scanned(prompt, so, were, from, index, held, last)
    ensures Scanned(prompt, chunks, consumed, start, index + 1, bytes, lastSpace)
  {
    hide Scanned, Bytes;
    chunks, consumed, start, bytes, lastSpace := so, were, from, held, last;
    if bytes + Width(prompt[index]) > MAX_ARGUMENT_BYTES {
      chunks, consumed, start, bytes := Cut(prompt, chunks, consumed, start, index, bytes, lastSpace);
      lastSpace := -1;
    }
    ScanAdvances(prompt, chunks, consumed, start, index, bytes, lastSpace);
    bytes := bytes + Width(prompt[index]);
    if prompt[index] == ' ' {
      lastSpace := index;
    }
  }

  method SplitPromptArguments(prompt: string) returns (chunks: seq<string>, ghost consumed: seq<bool>)
    ensures Cutting(prompt, chunks, consumed)
    ensures Bytes(prompt) <= MAX_ARGUMENT_BYTES ==> chunks == [prompt]
  {
    if Bytes(prompt) <= MAX_ARGUMENT_BYTES {
      ShortPromptIsOneWord(prompt);
      return [prompt], [];
    }
    hide *;
    chunks, consumed := [], [];
    var start: nat, bytes: nat := 0, 0;
    var lastSpace: int := -1;
    ScanStarts(prompt);
    for index := 0 to |prompt|
      invariant Scanned(prompt, chunks, consumed, start, index, bytes, lastSpace)
    {
      chunks, consumed, start, bytes, lastSpace := Advance(prompt, chunks, consumed, start, index, bytes, lastSpace);
    }
    ScanEnds(prompt, chunks, consumed, start, bytes, lastSpace);
    chunks := chunks + [prompt[start..]];
  }
}
