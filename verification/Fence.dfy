/**
 Embedding untrusted text in a prompt: a backtick fence the text cannot close, and a reader of fenced
 code blocks after section 4.5 of the CommonMark specification that gets the text back.
 */
module Fence {
  import opened Prelude

  const TICK: char := '`'

  /** Somewhere in `s` stand `n` backticks in a row. */
  ghost predicate HasRun(s: string, n: nat) {
    exists i :: RunAt(s, i, n)
  }

  ghost predicate RunAt(s: string, i: int, n: nat) {
    0 <= i <= i + n <= |s| && forall k :: i <= k < i + n ==> s[k] == TICK
  }

  function Ticks(n: nat): (r: string)
    ensures |r| == n && forall k :: 0 <= k < n ==> r[k] == TICK
  {
    seq(n, _ => TICK)
  }

  /** At least three backticks, more than any run in the content, and no more than that takes. */
  ghost predicate IsFence(content: string, fence: string) {
    && fence == Ticks(|fence|) && |fence| >= 3
    && !HasRun(content, |fence|)
    && (|fence| > 3 ==> HasRun(content, |fence| - 1))
  }

  lemma ShorterRun(s: string, m: nat, n: nat)
    requires m <= n && HasRun(s, n)
    ensures HasRun(s, m)
  {
    var i :| RunAt(s, i, n);
    assert RunAt(s, i, m);
  }

  lemma FenceIsUnique(content: string, f: string, g: string)
    requires IsFence(content, f) && IsFence(content, g)
    ensures f == g
  {
    if |f| < |g| {
      ShorterRun(content, |f|, |g| - 1);
    } else if |g| < |f| {
      ShorterRun(content, |g|, |f| - 1);
    }
  }

  /** No run of `n` backticks lies within the first `end` characters. */
  ghost predicate NoRunWithin(s: string, end: int, n: nat) {
    forall j :: j + n <= end ==> !RunAt(s, j, n)
  }

  method FenceDelimiter(content: string) returns (fence: string)
    ensures IsFence(content, fence)
  {
    var longest: nat, i: nat := 0, 0;
    assert RunAt(content, 0, 0);
    while i < |content|
      invariant i <= |content| && HasRun(content, longest) && NoRunWithin(content, i, longest + 1)
      invariant 0 < i < |content| ==> content[i - 1] != TICK || content[i] != TICK
      decreases |content| - i
    {
      var start := i;
      if content[i] != TICK {
        i := i + 1;
      } else {
        while i < |content| && content[i] == TICK
          invariant start <= i <= |content| && RunAt(content, start, i - start) && (i == start ==> content[i] == TICK)
        {
          i := i + 1;
        }
        NoLongerRun(content, start, i, longest, if longest < i - start then i - start else longest);
        if longest < i - start {
          longest := i - start;
        }
      }
    }
    fence := Ticks(if longest + 1 < 3 then 3 else longest + 1);
    if HasRun(content, |fence|) {
      ShorterRun(content, longest + 1, |fence|);
    }
  }

  lemma NoLongerRun(s: string, start: nat, end: nat, was: nat, longest: nat)
    requires start <= end <= |s| && longest >= was && longest >= end - start
    requires NoRunWithin(s, start, was + 1) && (0 < start ==> s[start - 1] != TICK)
    ensures NoRunWithin(s, end, longest + 1)
  {
    var n := longest + 1;
    forall j | j + n <= end ensures !RunAt(s, j, n) {
      if RunAt(s, j, n) && j + n <= start {
        assert RunAt(s, j, was + 1);
      }
    }
  }

  // ---------------------------------------------------------------- reading fenced code blocks

  /** The length of the first line of `s`, its line ending included. */
  function LineEnd(s: string): (n: nat)
    ensures n <= |s| && (s != "" ==> n > 0)
  {
    if s == "" then 0
    else if s[0] == '\n' then 1
    else if s[0] == '\r' then (if |s| > 1 && s[1] == '\n' then 2 else 1)
    else 1 + LineEnd(s[1..])
  }

  function WithoutEnding(line: string): string {
    if line != "" && (line[|line| - 1] == '\n' || line[|line| - 1] == '\r') then WithoutEnding(line[..|line| - 1])
       else line
  }

  /** How many of the character `c` the text starts with. */
  function Leading(s: string, c: char): (n: nat)
    ensures n <= |s| && forall k :: 0 <= k < n ==> s[k] == c
    ensures n < |s| ==> s[n] != c
  {
    if s != "" && s[0] == c then 1 + Leading(s[1..], c) else 0
  }

  predicate IsBlank(s: string) {
    forall k :: 0 <= k < |s| ==> s[k] == ' ' || s[k] == '\t'
  }

  /** A closing fence for `n` backticks: at most three spaces, at least `n` backticks, then only blanks. */
  predicate Closes(line: string, n: nat) {
    var text := WithoutEnding(line);
    var indent := Leading(text, ' ');
    var ticks := Leading(text[indent..], TICK);
    indent <= 3 && ticks >= n && IsBlank(text[indent + ticks..])
  }

  datatype Opening = Opening(indent: nat, ticks: nat, info: string)

  /** An opening fence: at most three spaces, three or more backticks, and no backtick after them. */
  function Opens(line: string): Option<Opening> {
    var text := WithoutEnding(line);
    var indent := Leading(text, ' ');
    var ticks := Leading(text[indent..], TICK);
    var info := text[indent + ticks..];
    if indent <= 3 && ticks >= 3 && TICK !in info then Some(Opening(indent, ticks, info)) else None
  }

  function Dedent(line: string, indent: nat): string {
    if indent > 0 && line != "" && line[0] == ' ' then Dedent(line[1..], indent - 1) else line
  }

  /** The lines up to the closing fence, or to the end where none closes it, and what follows. */
  function ReadBody(s: string, open: Opening): (string, string)
    decreases |s|
  {
    if s == "" then ("", "")
    else
      var k := LineEnd(s);
      if Closes(s[..k], open.ticks) then ("", s[k..])
      else
        var (body, rest) := ReadBody(s[k..], open);
        (Dedent(s[..k], open.indent) + body, rest)
  }

  datatype Block = Block(info: string, body: string, rest: string)

  /** The first fenced code block of a document. */
  function FirstBlock(s: string): Option<Block>
    decreases |s|
  {
    if s == "" then None
    else
      var k := LineEnd(s);
      match Opens(s[..k])
      case None => FirstBlock(s[k..])
      case Some(open) =>
        var (body, rest) := ReadBody(s[k..], open);
        Some(Block(open.info, body, rest))
  }

  // ---------------------------------------------------------------- what the reader finds in a signal

  /** Text made of whole lines. */
  predicate Whole(t: string) {
    t == "" || t[|t| - 1] == '\n'
  }

  /** No line of `t` closes a fence of `n` backticks. */
  predicate NoCloser(t: string, n: nat)
    decreases |t|
  {
    t == "" || (!Closes(t[..LineEnd(t)], n) && NoCloser(t[LineEnd(t)..], n))
  }

  lemma {:induction false} LineEndStays(t: string, rest: string)
    requires t != "" && Whole(t)
    ensures LineEnd(t + rest) == LineEnd(t) && Whole(t[LineEnd(t)..])
    decreases |t|
  {
    if |t| > 1 && t[0] != '\n' && t[0] != '\r' {
      assert (t + rest)[1..] == t[1..] + rest && (t + rest)[0] == t[0];
      LineEndStays(t[1..], rest);
      assert t[1..][LineEnd(t[1..])..] == t[LineEnd(t)..];
    }
  }

  lemma CutConcat(t: string, rest: string, k: nat)
    requires k <= |t|
    ensures (t + rest)[..k] == t[..k] && (t + rest)[k..] == t[k..] + rest && t == t[..k] + t[k..]
  {
  }

  /** What may stand after a block: nothing, or a line ending and more. */
  predicate IsTail(tail: string) {
    tail == "" || tail[0] == '\n'
  }

  function AfterLine(tail: string): string {
    if tail == "" then "" else tail[1..]
  }

  lemma {:induction false} LineEndPlain(line: string, tail: string)
    requires IsTail(tail) && forall k :: 0 <= k < |line| ==> line[k] != '\n' && line[k] != '\r'
    ensures LineEnd(line + tail) == |line| + (if tail == "" then 0 else 1)
  {
    if line == "" {
      assert line + tail == tail;
    } else {
      assert (line + tail)[1..] == line[1..] + tail;
      LineEndPlain(line[1..], tail);
    }
  }

  lemma PlainEnding(line: string)
    requires forall k :: 0 <= k < |line| ==> line[k] != '\n' && line[k] != '\r'
    ensures WithoutEnding(line) == line && WithoutEnding(line + "\n") == line
  {
    assert (line + "\n")[..|line|] == line;
  }

  lemma {:induction false} LeadingTicks(n: nat, rest: string)
    requires rest != "" ==> rest[0] != TICK
    ensures Leading(Ticks(n) + rest, TICK) == n
  {
    if n == 0 {
      assert Ticks(0) + rest == rest;
    } else {
      assert (Ticks(n) + rest)[1..] == Ticks(n - 1) + rest;
      LeadingTicks(n - 1, rest);
    }
  }

  lemma FenceCloses(n: nat, tail: string)
    requires n >= 3 && IsTail(tail)
    ensures var s := Ticks(n) + tail; var k := LineEnd(s); Closes(s[..k], n) && s[k..] == AfterLine(tail)
  {
    LineEndPlain(Ticks(n), tail);
    PlainEnding(Ticks(n));
    var s := Ticks(n) + tail;
    assert s[..LineEnd(s)] == if tail == "" then Ticks(n) else Ticks(n) + "\n";
    assert Ticks(n) + "" == Ticks(n);
    LeadingTicks(n, "");
    assert Ticks(n)[0..] == Ticks(n);
  }

  /**
   Between the fences the reader gets back the whole lines it finds there exactly when none of them
   closes the fence.
   */
  lemma {:induction false} BodyReadsBack(t: string, info: string, n: nat, tail: string)
    requires n >= 3 && Whole(t) && IsTail(tail)
    ensures NoCloser(t, n) ==> ReadBody(t + (Ticks(n) + tail), Opening(0, n, info)) == (t, AfterLine(tail))
    ensures !NoCloser(t, n) ==> |ReadBody(t + (Ticks(n) + tail), Opening(0, n, info)).0| < |t|
    decreases |t|
  {
    hide Closes, LineEnd, IsTail, AfterLine;
    var close := Ticks(n) + tail;
    if t == "" {
      assert t + close == close;
      FenceCloses(n, tail);
    } else {
      LineEndStays(t, close);
      var k := LineEnd(t);
      CutConcat(t, close, k);
      BodyReadsBack(t[k..], info, n, tail);
    }
  }

  lemma {:induction false} EndingIsPrefix(line: string)
    ensures |WithoutEnding(line)| <= |line| && WithoutEnding(line) == line[..|WithoutEnding(line)|]
  {
    if line != "" && (line[|line| - 1] == '\n' || line[|line| - 1] == '\r') { EndingIsPrefix(line[..|line| - 1]); }
  }

  lemma CloserHasRun(line: string, n: nat)
    requires Closes(line, n)
    ensures HasRun(line, n)
  {
    EndingIsPrefix(line);
    var text := WithoutEnding(line);
    var indent := Leading(text, ' ');
    assert forall k :: indent <= k < indent + n ==> text[k] == text[indent..][k - indent];
    assert RunAt(line, indent, n);
  }

  lemma RunInPart(s: string, from: nat, to: nat, n: nat)
    requires from <= to <= |s| && HasRun(s[from..to], n)
    ensures HasRun(s, n)
  {
    var i :| RunAt(s[from..to], i, n);
    assert forall k :: from + i <= k < from + i + n ==> s[k] == s[from..to][k - from];
    assert RunAt(s, from + i, n);
  }

  lemma {:induction false} ShortRunsDoNotClose(t: string, n: nat)
    requires !HasRun(t, n)
    ensures NoCloser(t, n)
    decreases |t|
  {
    if t != "" {
      var k := LineEnd(t);
      if HasRun(t[..k], n) { RunInPart(t, 0, k, n); }
      assert t[k..] == t[k..|t|];
      if HasRun(t[k..], n) { RunInPart(t, k, |t|, n); }
      if Closes(t[..k], n) { CloserHasRun(t[..k], n); }
      ShortRunsDoNotClose(t[k..], n);
    }
  }

  lemma NewlineAddsNoRun(content: string, n: nat)
    requires n > 0 && HasRun(content + "\n", n)
    ensures HasRun(content, n)
  {
    var i :| RunAt(content + "\n", i, n);
    var last := i + n - 1;
    assert (content + "\n")[last] == TICK;
    assert forall k :: i <= k < i + n ==> (content + "\n")[k] == content[k];
    assert RunAt(content, i, n);
  }

  /** A heading, the fence with its info string, the content, the fence again. */
  function Framed(title: string, fence: string, content: string): string {
    Heading(title) + (fence + "json\n" + (content + "\n" + fence))
  }

  function Heading(title: string): string {
    "### " + title + "\n"
  }

  predicate IsOneLine(s: string) {
    forall k :: 0 <= k < |s| ==> s[k] != '\n' && s[k] != '\r'
  }

  lemma HeadingIsSkipped(title: string, rest: string)
    requires IsOneLine(title)
    ensures FirstBlock(Heading(title) + rest) == FirstBlock(rest)
  {
    var text, s := "### " + title, Heading(title) + rest;
    assert s == text + ("\n" + rest) && Heading(title) == text + "\n";
    LineEndPlain(text, "\n" + rest);
    PlainEnding(text);
    assert s[..LineEnd(s)] == Heading(title) && s[LineEnd(s)..] == rest;
    assert text[0] == '#' && text[0..] == text;
  }

  lemma OpensParts(line: string, text: string, n: nat, info: string)
    requires n >= 3 && WithoutEnding(line) == text && text == Ticks(n) + info && TICK !in info
    requires Leading(text, ' ') == 0 && Leading(text, TICK) == n
    ensures Opens(line) == Some(Opening(0, n, info))
  {
    hide WithoutEnding, Leading;
    assert text[0..] == text && text[n..] == info;
  }

  lemma InfoOpens(n: nat)
    requires n >= 3
    ensures Opens(Ticks(n) + "json\n") == Some(Opening(0, n, "json"))
  {
    hide WithoutEnding, Opens;
    var text := Ticks(n) + "json";
    assert text + "\n" == Ticks(n) + "json\n";
    PlainEnding(text);
    LeadingTicks(n, "json");
    OpensParts(text + "\n", text, n, "json");
  }

  lemma FenceOpens(n: nat, rest: string)
    requires n >= 3
    ensures var s := Ticks(n) + "json\n" + rest;
            var k := LineEnd(s); Opens(s[..k]) == Some(Opening(0, n, "json")) && s[k..] == rest && s != ""
  {
    hide Opens, LineEnd;
    var text, s := Ticks(n) + "json", Ticks(n) + "json\n" + rest;
    assert s == text + ("\n" + rest);
    LineEndPlain(text, "\n" + rest);
    InfoOpens(n);
    assert s[..LineEnd(s)] == Ticks(n) + "json\n" && s[LineEnd(s)..] == rest;
  }

  /**
   For any fence of three or more backticks: the content comes back exactly when none of its lines closes
   that fence.
   */
  lemma ReadsBackIffNoCloser(title: string, n: nat, content: string, tail: string)
    requires n >= 3 && IsOneLine(title) && IsTail(tail)
    ensures FirstBlock(Framed(title, Ticks(n), content) + tail) == Some(Block("json", content + "\n", AfterLine(tail)))
            <==> NoCloser(content + "\n", n)
  {
    var t, fence := content + "\n", Ticks(n);
    var block := fence + "json\n" + (t + (fence + tail));
    assert Framed(title, fence, content) + tail == Heading(title) + block;
    HeadingIsSkipped(title, block);
    FenceOpens(n, t + (fence + tail));
    BodyReadsBack(t, "json", n, tail);
  }

  /** With the delimiter computed from it, every content comes back, and so does the text after the block. */
  lemma SignalReadsBack(title: string, fence: string, content: string, tail: string)
    requires IsFence(content, fence) && IsOneLine(title) && IsTail(tail)
    ensures FirstBlock(Framed(title, fence, content) + tail) == Some(Block("json", content + "\n", AfterLine(tail)))
  {
    if HasRun(content + "\n", |fence|) { NewlineAddsNoRun(content, |fence|); }
    ShortRunsDoNotClose(content + "\n", |fence|);
    ReadsBackIffNoCloser(title, |fence|, content, tail);
  }

  method SignalBlock(title: string, content: string) returns (block: string)
    ensures exists fence :: IsFence(content, fence) && block == Framed(title, fence, content)
    ensures IsOneLine(title) ==> FirstBlock(block) == Some(Block("json", content + "\n", ""))
  {
    var fence := FenceDelimiter(content);
    block := "### " + title + "\n" + fence + "json\n" + content + "\n" + fence;
    assert block == Framed(title, fence, content);
    if IsOneLine(title) {
      SignalReadsBack(title, fence, content, "");
      assert block + "" == block;
    }
  }
}
