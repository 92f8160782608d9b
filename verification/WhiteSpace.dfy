/** White space as ECMAScript has it: what `trim` removes and a regular expression's \s matches. */
module WhiteSpace {
  predicate IsSpace(c: char) {
    var u := c as int;
    || 0x9 <= u <= 0xD || u == 0x20 || u == 0xA0 || u == 0x1680 || 0x2000 <= u <= 0x200A
    || u == 0x2028 || u == 0x2029 || u == 0x202F || u == 0x205F || u == 0x3000 || u == 0xFEFF
  }

  predicate IsBlank(s: string) {
    forall i :: 0 <= i < |s| ==> IsSpace(s[i])
  }

  predicate HasNoSpace(s: string) {
    forall i :: 0 <= i < |s| ==> !IsSpace(s[i])
  }

  function TrimStart(s: string): string {
    if s != "" && IsSpace(s[0]) then TrimStart(s[1..]) else s
  }

  function TrimEnd(s: string): string {
    if s != "" && IsSpace(s[|s| - 1]) then TrimEnd(s[..|s| - 1]) else s
  }

  function Trim(s: string): string {
    TrimEnd(TrimStart(s))
  }

  lemma {:induction false} TrimIsASuffix(s: string) returns (gap: string)
    ensures IsBlank(gap) && s == gap + TrimStart(s)
    decreases |s|
  {
    if s != "" && IsSpace(s[0]) {
      var tail := TrimIsASuffix(s[1..]);
      gap := [s[0]] + tail;
      assert s == [s[0]] + s[1..];
    } else {
      gap := "";
    }
  }

  lemma {:induction false} TrimOfGap(gap: string, word: string)
    requires IsBlank(gap) && word != "" && !IsSpace(word[0])
    ensures TrimStart(gap + word) == word
    decreases |gap|
  {
    if gap == "" {
      assert gap + word == word;
    } else {
      assert (gap + word)[1..] == gap[1..] + word;
      TrimOfGap(gap[1..], word);
    }
  }
}
