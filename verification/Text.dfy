/** Whitespace and trimming. */
module Text {

  /** The characters with the Unicode White_Space property. */
  predicate IsWhitespace(c: char) {
    var n := c as int;
    || 0x9 <= n <= 0xD || n == 0x20 || n == 0x85 || n == 0xA0 || n == 0x1680
    || 0x2000 <= n <= 0x200A || n == 0x2028 || n == 0x2029 || n == 0x202F || n == 0x205F || n == 0x3000
  }

  /** The same characters, one by one: tab to carriage return, space, and those outside ASCII. */
  lemma WhitespaceCodes(c: char)
    ensures IsWhitespace(c) <==>
      c as int in {9, 10, 11, 12, 13, 32, 133, 160, 5760, 8192, 8193, 8194, 8195, 8196, 8197, 8198, 8199, 8200,
        8201, 8202, 8232, 8233, 8239, 8287, 12288}
  {
  }

  /** Nothing is left once surrounding whitespace is trimmed. */
  predicate IsBlank(s: string) {
    forall i :: 0 <= i < |s| ==> IsWhitespace(s[i])
  }

  function TrimStart(s: string): string {
    if s != "" && IsWhitespace(s[0]) then TrimStart(s[1..]) else s
  }

  function TrimEnd(s: string): string {
    if s != "" && IsWhitespace(s[|s| - 1]) then TrimEnd(s[..|s| - 1]) else s
  }

  function Trim(s: string): string {
    TrimEnd(TrimStart(s))
  }

  /** Neither end is whitespace. */
  predicate IsTrimmed(s: string) {
    s == "" || (!IsWhitespace(s[0]) && !IsWhitespace(s[|s| - 1]))
  }

  lemma {:induction false} TrimStartSplits(s: string) returns (left: string)
    ensures IsBlank(left) && s == left + TrimStart(s)
    ensures TrimStart(s) == "" || !IsWhitespace(TrimStart(s)[0])
  {
    left := "";
    if s != "" && IsWhitespace(s[0]) {
      var rest := TrimStartSplits(s[1..]);
      left := [s[0]] + rest;
    }
  }

  lemma {:induction false} TrimEndSplits(s: string) returns (right: string)
    ensures IsBlank(right) && s == TrimEnd(s) + right
    ensures TrimEnd(s) == "" || !IsWhitespace(TrimEnd(s)[|TrimEnd(s)| - 1])
    ensures TrimEnd(s) <= s
  {
    right := "";
    if s != "" && IsWhitespace(s[|s| - 1]) {
      var rest := TrimEndSplits(s[..|s| - 1]);
      right := rest + [s[|s| - 1]];
    }
  }

  /** Trimming removes a blank prefix and a blank suffix, and leaves a trimmed text. */
  lemma TrimSplits(s: string) returns (left: string, right: string)
    ensures IsBlank(left) && IsBlank(right) && IsTrimmed(Trim(s)) && s == left + Trim(s) + right
  {
    left := TrimStartSplits(s);
    right := TrimEndSplits(TrimStart(s));
    assert left + (Trim(s) + right) == left + Trim(s) + right;
  }

  lemma {:induction false} TrimStartPadded(left: string, s: string)
    requires IsBlank(left) && (s == "" || !IsWhitespace(s[0]))
    ensures TrimStart(left + s) == s
  {
    if left == "" {
      assert left + s == s;
    } else {
      TrimStartPadded(left[1..], s);
      assert (left + s)[1..] == left[1..] + s;
    }
  }

  lemma {:induction false} TrimEndPadded(s: string, right: string)
    requires IsBlank(right) && (s == "" || !IsWhitespace(s[|s| - 1]))
    ensures TrimEnd(s + right) == s
  {
    if right == "" {
      assert s + right == s;
    } else {
      TrimEndPadded(s, right[..|right| - 1]);
      assert (s + right)[..|s + right| - 1] == s + right[..|right| - 1];
    }
  }

  /** Padding a trimmed text and trimming it gives it back. */
  lemma TrimPadded(left: string, s: string, right: string)
    requires IsBlank(left) && IsBlank(right) && IsTrimmed(s)
    ensures Trim(left + s + right) == s
  {
    if s == "" {
      assert left + s + right == left + right;
      BlankTrims(left + right);
    } else {
      assert left + s + right == left + (s + right);
      TrimStartPadded(left, s + right);
      TrimEndPadded(s, right);
    }
  }

  lemma {:induction false} BlankTrims(s: string)
    requires IsBlank(s)
    ensures TrimStart(s) == ""
  {
    if s != "" {
      BlankTrims(s[1..]);
    }
  }
}
