/** Text as the patch tools see it: the line boundaries of `str.splitlines`, and the newline
    translation of text-mode reading. A character is a Unicode code point. */
module Lines {

  /** The characters that end a line for `str.splitlines`. */
  predicate IsBreak(c: char) {
    || c == '\n' || c == '\r' || c == '\U{0B}' || c == '\U{0C}'
    || c == '\U{1C}' || c == '\U{1D}' || c == '\U{1E}' || c == '\U{85}'
    || c == '\U{2028}' || c == '\U{2029}'
  }

  predicate BreakFree(s: string) {
    forall i :: 0 <= i < |s| ==> !IsBreak(s[i])
  }

  predicate NoCarriageReturn(s: string) {
    forall i :: 0 <= i < |s| ==> s[i] != '\r'
  }

  /** Length of the first line of `s`, its terminator included; "\r\n" is one terminator. */
  function FirstLineLength(s: string): (n: nat)
    requires s != ""
    ensures 1 <= n <= |s|
  {
    if s[0] == '\r' && |s| > 1 && s[1] == '\n' then 2
    else if IsBreak(s[0]) || |s| == 1 then 1
    else 1 + FirstLineLength(s[1..])
  }

  /** `splitlines(keepends=True)` */
  function KeepLines(s: string): (ls: seq<string>) {
    if s == "" then [] else
    var n := FirstLineLength(s);
    [s[..n]] + KeepLines(s[n..])
  }

  /** A line without its terminator. */
  function Chomp(line: string): string {
    if |line| >= 2 && line[|line| - 2] == '\r' && line[|line| - 1] == '\n' then line[..|line| - 2]
    else if line != "" && IsBreak(line[|line| - 1]) then line[..|line| - 1]
    else line
  }

  /** `splitlines()` */
  function SplitLines(s: string): (ls: seq<string>)
    ensures |ls| == |KeepLines(s)|
  {
    var kept := KeepLines(s);
    seq(|kept|, i requires 0 <= i < |kept| => Chomp(kept[i]))
  }

  /** `"".join(parts)` */
  function Concat(parts: seq<string>): string {
    if parts == [] then "" else parts[0] + Concat(parts[1..])
  }

  /** Universal-newline translation: what `read_text` does to "\r\n" and to a lone "\r". */
  function Translate(s: string): (r: string)
    ensures NoCarriageReturn(r)
    ensures NoCarriageReturn(s) ==> r == s
  {
    if s == "" then ""
    else if s[0] == '\r' then "\n" + Translate(if |s| > 1 && s[1] == '\n' then s[2..] else s[1..])
    else [s[0]] + Translate(s[1..])
  }

  /** Translation goes part by part, as long as no "\r\n" is torn apart; it turns "\r\n" and "\r" into
      "\n" and leaves every other character. Together these laws say what becomes of any text. */
  lemma {:induction false} TranslateParts(a: string, b: string, c: char)
    ensures !TornBreak(a, b) ==> Translate(a + b) == Translate(a) + Translate(b)
    ensures Translate("\r\n") == "\n" && Translate("\r") == "\n"
    ensures c != '\r' ==> Translate([c]) == [c]
  {
    if !TornBreak(a, b) {
      TranslateAppend(a, b);
    }
    assert "\r\n"[2..] == "" && "\r"[1..] == "";
  }

  /** A "\r\n" with its halves in `a` and `b`. */
  predicate TornBreak(a: string, b: string) {
    a != "" && a[|a| - 1] == '\r' && b != "" && b[0] == '\n'
  }

  lemma {:induction false} TranslateAppend(a: string, b: string)
    requires !TornBreak(a, b)
    ensures Translate(a + b) == Translate(a) + Translate(b)
  {
    if a == "" {
      assert a + b == b;
    } else {
      var whole := a + b;
      assert whole[0] == a[0] && (|a| > 1 ==> whole[1] == a[1]) && (|a| == 1 && b != "" ==> whole[1] == b[0]);
      if a[0] == '\r' && |a| > 1 && a[1] == '\n' {
        assert whole[2..] == a[2..] + b;
        TranslateAppend(a[2..], b);
      } else {
        assert whole[1..] == a[1..] + b;
        TranslateAppend(a[1..], b);
      }
    }
  }

  /** One line closed by a one-character terminator. */
  predicate Terminated(line: string) {
    && line != ""
    && IsBreak(line[|line| - 1])
    && BreakFree(line[..|line| - 1])
    && NoCarriageReturn(line)
  }

  predicate AllTerminated(ls: seq<string>) {
    forall i :: 0 <= i < |ls| ==> Terminated(ls[i])
  }

  /** A last line without a terminator. */
  predicate Unterminated(line: string) {
    line != "" && BreakFree(line)
  }

  /** The shape of every text that text-mode reading can produce: terminated lines, of which only
      the last may lack its terminator. */
  predicate LineShaped(ls: seq<string>) {
    ls != [] ==> AllTerminated(ls[..|ls| - 1]) && (Terminated(ls[|ls| - 1]) || Unterminated(ls[|ls| - 1]))
  }

  lemma {:induction false} ConcatAppend(a: seq<string>, b: seq<string>)
    ensures Concat(a + b) == Concat(a) + Concat(b)
  {
    if a == [] {
      assert a + b == b;
    } else {
      assert (a + b)[1..] == a[1..] + b;
      ConcatAppend(a[1..], b);
    }
  }

  lemma {:induction false} ConcatOfKeepLines(s: string)
    ensures Concat(KeepLines(s)) == s
  {
    if s != "" {
      ConcatOfKeepLines(s[FirstLineLength(s)..]);
    }
  }

  lemma {:induction false} FirstLineShape(s: string)
    requires s != "" && NoCarriageReturn(s)
    ensures var n := FirstLineLength(s);
      Terminated(s[..n]) || (n == |s| && Unterminated(s[..n]))
  {
    var n := FirstLineLength(s);
    if IsBreak(s[0]) || |s| == 1 {
      assert s[..n] == [s[0]];
    } else {
      FirstLineShape(s[1..]);
      assert s[1..][..n - 1] == s[..n][1..];
      assert s[..n] == [s[0]] + s[..n][1..];
    }
  }

  lemma {:induction false} LineShapedCons(line: string, rest: seq<string>)
    requires LineShaped(rest) && (Terminated(line) || (rest == [] && Unterminated(line)))
    ensures LineShaped([line] + rest)
  {
    if rest != [] {
      assert ([line] + rest)[..|rest|] == [line] + rest[..|rest| - 1];
    }
  }

  lemma {:induction false} KeepLinesShape(s: string)
    requires NoCarriageReturn(s)
    ensures LineShaped(KeepLines(s))
  {
    if s != "" {
      var n := FirstLineLength(s);
      FirstLineShape(s);
      KeepLinesShape(s[n..]);
      LineShapedCons(s[..n], KeepLines(s[n..]));
    }
  }

  lemma {:induction false} FirstLineOfTerminated(line: string, rest: string)
    requires Terminated(line)
    ensures FirstLineLength(line + rest) == |line|
  {
    if |line| > 1 {
      assert line[..|line| - 1][0] == line[0];
      assert (line + rest)[1..] == line[1..] + rest;
      assert line[1..][..|line| - 2] == line[..|line| - 1][1..];
      FirstLineOfTerminated(line[1..], rest);
    }
  }

  lemma {:induction false} FirstLineOfUnterminated(line: string)
    requires Unterminated(line)
    ensures FirstLineLength(line) == |line|
  {
    if |line| > 1 {
      FirstLineOfUnterminated(line[1..]);
    }
  }

  lemma {:induction false} KeepLinesCons(line: string, rest: string)
    requires Terminated(line)
    ensures KeepLines(line + rest) == [line] + KeepLines(rest)
  {
    FirstLineOfTerminated(line, rest);
    assert (line + rest)[..|line|] == line && (line + rest)[|line|..] == rest;
  }

  lemma {:induction false} JoinLater(a: string, b: string, c: string)
    ensures (a + b) + c == a + (b + c)
  {
  }

  /** Joining lines and splitting again gives the lines back, whatever follows them. */
  lemma {:induction false} KeepLinesOfConcat(ls: seq<string>, rest: string)
    requires AllTerminated(ls)
    ensures KeepLines(Concat(ls) + rest) == ls + KeepLines(rest)
  {
    if ls == [] {
      assert Concat(ls) + rest == rest;
    } else {
      var tail := Concat(ls[1..]) + rest;
      JoinLater(ls[0], Concat(ls[1..]), rest);
      KeepLinesCons(ls[0], tail);
      KeepLinesOfConcat(ls[1..], rest);
      assert ls == [ls[0]] + ls[1..];
    }
  }

  lemma {:induction false} KeepLinesOfLineShaped(ls: seq<string>)
    requires LineShaped(ls)
    ensures KeepLines(Concat(ls)) == ls
  {
    if ls != [] {
      var init, last := ls[..|ls| - 1], ls[|ls| - 1];
      assert ls == init + [last];
      ConcatAppend(init, [last]);
      assert Concat([last]) == last;
      KeepLinesOfConcat(init, last);
      if Terminated(last) {
        KeepLinesCons(last, "");
        assert last + "" == last;
      } else {
        FirstLineOfUnterminated(last);
        assert last[..|last|] == last;
      }
    }
  }

  lemma {:induction false} FirstLineChompsClean(s: string)
    requires s != ""
    ensures BreakFree(Chomp(s[..FirstLineLength(s)]))
  {
    var n := FirstLineLength(s);
    if (s[0] == '\r' && |s| > 1 && s[1] == '\n') || IsBreak(s[0]) || |s| == 1 {
    } else {
      FirstLineChompsClean(s[1..]);
      assert s[..n] == [s[0]] + s[1..][..n - 1];
      assert Chomp(s[..n]) == [s[0]] + Chomp(s[1..][..n - 1]);
    }
  }

  /** No line of `splitlines()` contains a line break. */
  lemma {:induction false} SplitLinesBreakFree(s: string)
    ensures forall i :: 0 <= i < |SplitLines(s)| ==> BreakFree(SplitLines(s)[i])
  {
    if s != "" {
      var n := FirstLineLength(s);
      FirstLineChompsClean(s);
      SplitLinesBreakFree(s[n..]);
      assert SplitLines(s) == [Chomp(s[..n])] + SplitLines(s[n..]);
    }
  }

  // ---------------------------------------------------------------- what splitting does to any text

  /** The terminators of a line. */
  const BREAKS: set<string> := {
    "\r\n", "\n", "\r", "\U{0B}", "\U{0C}", "\U{1C}", "\U{1D}", "\U{1E}", "\U{85}", "\U{2028}", "\U{2029}"}

  lemma {:induction false} FirstLineEnds(line: string, br: string, rest: string)
    requires BreakFree(line) && br in BREAKS && !TornBreak(br, rest)
    ensures FirstLineLength(line + br + rest) == |line| + |br|
  {
    if line == "" {
      assert line + br + rest == br + rest;
    } else {
      assert (line + br + rest)[1..] == line[1..] + br + rest;
      FirstLineEnds(line[1..], br, rest);
    }
  }

  lemma {:induction false} BreakCharacters(s: string)
    requires |s| == 1
    ensures IsBreak(s[0]) <==> s in BREAKS
  {
    assert s == [s[0]];
    assert ['\n'] == "\n" && ['\r'] == "\r" && ['\U{0B}'] == "\U{0B}" && ['\U{0C}'] == "\U{0C}";
    assert ['\U{1C}'] == "\U{1C}" && ['\U{1D}'] == "\U{1D}" && ['\U{1E}'] == "\U{1E}" && ['\U{85}'] == "\U{85}";
    assert ['\U{2028}'] == "\U{2028}" && ['\U{2029}'] == "\U{2029}";
  }

  /** A text splits at its first terminator, "\r\n" being one; without a terminator it is one line, or none.
      A character ends a line exactly when it is a terminator. Together these laws say how any text splits. */
  lemma {:induction false} SplitLinesParts(line: string, br: string, rest: string, c: char)
    requires BreakFree(line) && br in BREAKS && !TornBreak(br, rest)
    ensures SplitLines(line + br + rest) == [line] + SplitLines(rest)
    ensures SplitLines(line) == if line == "" then [] else [line]
    ensures BreakFree([c]) <==> [c] !in BREAKS
  {
    BreakCharacters([c]);
    var text := line + br + rest;
    FirstLineEnds(line, br, rest);
    assert text[..|line| + |br|] == line + br && text[|line| + |br|..] == rest;
    assert Chomp(line + br) == line;
    assert SplitLines(text) == [Chomp(line + br)] + SplitLines(rest);
    if line != "" {
      FirstLineOfUnterminated(line);
      assert line[..|line|] == line && KeepLines(line[|line|..]) == [];
      assert KeepLines(line) == [line] && Chomp(line) == line;
    }
  }

  /** The text made of these lines, each closed by "\n". */
  function Unlines(ls: seq<string>): string {
    if ls == [] then "" else ls[0] + "\n" + Unlines(ls[1..])
  }

  lemma {:induction false} SplitLinesOfUnlines(ls: seq<string>)
    requires forall i :: 0 <= i < |ls| ==> BreakFree(ls[i])
    ensures SplitLines(Unlines(ls)) == ls
  {
    if ls != [] {
      var line := ls[0] + "\n";
      var rest := Unlines(ls[1..]);
      assert line[..|line| - 1] == ls[0];
      assert Unlines(ls) == line + rest;
      KeepLinesCons(line, rest);
      SplitLinesOfUnlines(ls[1..]);
      assert Chomp(line) == ls[0];
      assert SplitLines(line + rest) == [Chomp(line)] + SplitLines(rest);
    }
  }
}
