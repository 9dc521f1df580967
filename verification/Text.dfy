/** The string operations of the host language that the program relies on. */
module Text {
  import opened Common

  /** The characters at which the host language breaks lines. */
  predicate IsLineBreak(c: char) {
    c in {'\n', '\r', '\U{000B}', '\U{000C}', '\U{001C}', '\U{001D}', '\U{001E}', '\U{0085}', '\U{2028}', '\U{2029}'}
  }

  predicate IsSpace(c: char) {
    || IsLineBreak(c)
    || c in {' ', '\t', '\U{001F}', '\U{00A0}', '\U{1680}', '\U{202F}', '\U{205F}', '\U{3000}'}
    || '\U{2000}' <= c <= '\U{200A}'
  }

  function StripLeft(s: string): string {
    if s != "" && IsSpace(s[0]) then StripLeft(s[1..]) else s
  }

  function StripRight(s: string): string {
    if s != "" && IsSpace(s[|s| - 1]) then StripRight(s[..|s| - 1]) else s
  }

  function Strip(s: string): string {
    StripRight(StripLeft(s))
  }

  predicate Blank(s: string) {
    forall i :: 0 <= i < |s| ==> IsSpace(s[i])
  }

  predicate Stripped(s: string) {
    s == "" || (!IsSpace(s[0]) && !IsSpace(s[|s| - 1]))
  }

  lemma {:induction false} StripLeftShape(s: string)
    ensures StripLeft(s) == "" || !IsSpace(StripLeft(s)[0])
    ensures StripLeft(s) == "" <==> Blank(s)
    ensures |StripLeft(s)| <= |s| && StripLeft(s) == s[|s| - |StripLeft(s)|..]
    ensures Blank(s[..|s| - |StripLeft(s)|])
  {
    if s != "" && IsSpace(s[0]) {
      StripLeftShape(s[1..]);
      assert s == [s[0]] + s[1..];
    }
  }

  lemma {:induction false} StripRightShape(s: string)
    ensures StripRight(s) <= s
    ensures StripRight(s) == "" || !IsSpace(StripRight(s)[|StripRight(s)| - 1])
    ensures StripRight(s) == "" <==> Blank(s)
    ensures Blank(s[|StripRight(s)|..])
  {
    if s != "" && IsSpace(s[|s| - 1]) {
      StripRightShape(s[..|s| - 1]);
      assert s == s[..|s| - 1] + [s[|s| - 1]];
    }
  }

  lemma StripShape(s: string)
    ensures Stripped(Strip(s)) && |Strip(s)| <= |s|
    ensures Strip(s) == "" <==> Blank(s)
  {
    StripLeftShape(s);
    StripRightShape(StripLeft(s));
    assert StripLeft(s) != "" ==> !IsSpace(StripLeft(s)[0]);
  }

  lemma StripOfStripped(s: string)
    requires Stripped(s)
    ensures Strip(s) == s
  {
  }

  /** The length of the first line. */
  function LineEnd(t: string): (n: nat)
    ensures n <= |t| && NoLineBreak(t[..n]) && (n < |t| ==> IsLineBreak(t[n]))
  {
    if t == "" || IsLineBreak(t[0]) then 0
    else
      var n := LineEnd(t[1..]) + 1;
      assert forall i :: 0 < i < n ==> t[..n][i] == t[1..][..n - 1][i - 1];
      n
  }

  predicate NoLineBreak(t: string) {
    forall i :: 0 <= i < |t| ==> !IsLineBreak(t[i])
  }

  /** The text cut at every line break; a final line break does not open another line. */
  function Lines(t: string): (r: seq<string>)
    ensures forall line :: line in r ==> NoLineBreak(line)
    decreases |t|
  {
    if t == "" then []
    else
      var n := LineEnd(t);
      if n == |t| then [t]
      else if t[n] == '\r' && n + 1 < |t| && t[n + 1] == '\n' then [t[..n]] + Lines(t[n + 2..])
      else [t[..n]] + Lines(t[n + 1..])
  }

  lemma {:induction false} LineEndAt(line: string, rest: string)
    requires NoLineBreak(line) && (rest == "" || IsLineBreak(rest[0]))
    ensures LineEnd(line + rest) == |line|
  {
    if line != "" {
      assert (line + rest)[1..] == line[1..] + rest;
      LineEndAt(line[1..], rest);
    } else {
      assert line + rest == rest;
    }
  }

  lemma LinesOfLine(line: string, rest: string)
    requires NoLineBreak(line)
    ensures Lines(line + "\n" + rest) == [line] + Lines(rest)
    ensures line != "" ==> Lines(line) == [line]
  {
    LineEndAt(line, "\n" + rest);
    assert line + "\n" + rest == line + ("\n" + rest);
    var t := line + "\n" + rest;
    assert t[..|line|] == line && t[|line| + 1..] == rest;
    LineEndAt(line, "");
    assert line + "" == line;
  }

  /** A line ends at the first break, and a carriage return takes the newline after it along. */
  lemma LinesOfBreak(line: string, ending: string, rest: string)
    requires NoLineBreak(line)
    requires ending == "\r\n" || (|ending| == 1 && IsLineBreak(ending[0]) && (ending == "\r" ==> !("\n" <= rest)))
    ensures Lines(line + ending + rest) == [line] + Lines(rest)
  {
    var t := line + ending + rest;
    assert t == line + (ending + rest) && (ending + rest)[0] == ending[0];
    LineEndAt(line, ending + rest);
    assert t[..|line|] == line && t[|line| + |ending|..] == rest;
    if ending == "\r\n" {
      assert t[|line|] == '\r' && t[|line| + 1] == '\n';
    } else if ending[0] == '\r' && rest != "" {
      assert ending == "\r";
      assert t[|line| + 1] == rest[0] && (rest[0] == '\n' ==> "\n" <= rest);
    }
  }

  lemma {:induction false} StripLeftSpace(s: string, c: char)
    requires IsSpace(c)
    ensures StripLeft(s + [c]) == if Blank(s) then "" else StripLeft(s) + [c]
  {
    if s == "" {
      assert s + [c] == [c] && [c][1..] == "";
    } else if IsSpace(s[0]) {
      assert (s + [c])[1..] == s[1..] + [c];
      StripLeftSpace(s[1..], c);
      assert s == [s[0]] + s[1..];
    } else {
      assert !Blank(s);
    }
  }

  /** White space at the end of a text does not matter once it is stripped. */
  lemma StripSnocSpace(s: string, c: char)
    requires IsSpace(c)
    ensures Strip(s + [c]) == Strip(s)
  {
    StripLeftSpace(s, c);
    StripLeftShape(s);
    if !Blank(s) {
      var t := StripLeft(s) + [c];
      assert t[..|t| - 1] == StripLeft(s);
    }
  }
}
