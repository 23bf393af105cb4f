/** The chat loop's line editor: bytes arrive in chunks, and each chunk is scanned on its own. */
module Chat {
  import opened Octets

  const ESC := 0x1b

  datatype Mode = Ground | AfterEsc | InSequence

  /** The editor: the line being composed, the lines handed to `handle_line`, whether the chat was
      left, and where the stream stands with respect to an escape sequence. */
  datatype Editor = Editor(input: string, lines: seq<string>, left: bool, mode: Mode)

  function FirstWord(line: string): string {
    if line == "" then ""
    else if line[0] == ' ' then FirstWord(line[1..])
    else FirstRun(line)
  }

  function FirstRun(line: string): string {
    if line == "" || line[0] == ' ' then "" else [line[0]] + FirstRun(line[1..])
  }

  /** Whether `handle_line` leaves the chat. */
  predicate Leaves(line: string) {
    FirstWord(line) in {"/back", "/quit", "/exit"}
  }

  predicate Opens(b: byte) {
    b == '[' as int || b == 'O' as int
  }

  predicate Finishes(b: byte) {
    0x40 <= b <= 0x7e
  }

  predicate Printable(b: int) {
    0x20 <= b < 0x7f
  }

  /** A byte outside escape sequences. */
  function Key(e: Editor, b: byte): Editor {
    if b == '\n' as int || b == '\r' as int then
      if e.input == "" then e.(mode := Ground)
      else Editor("", e.lines + [e.input], Leaves(e.input), Ground)
    else if b == 0x7f || b == 0x08 then
      e.(input := if e.input == "" then "" else e.input[..|e.input| - 1], mode := Ground)
    else if b == ESC then e.(mode := AfterEsc)
    else if b == 0x04 then e.(left := e.input == "", mode := Ground)
    else if Printable(b) then e.(input := e.input + [b as char], mode := Ground)
    else e.(mode := Ground)
  }

  /** The reference: one byte of one unbroken stream. */
  function Feed(e: Editor, b: byte): Editor {
    if e.left then e
    else
      match e.mode
      case Ground => Key(e, b)
      case AfterEsc => if Opens(b) then e.(mode := InSequence) else Key(e, b)
      case InSequence => if Finishes(b) then e.(mode := Ground) else e
  }

  function FeedAll(e: Editor, bytes: seq<byte>): Editor
    decreases |bytes|
  {
    if bytes == [] then e else FeedAll(Feed(e, bytes[0]), bytes[1..])
  }

  lemma {:induction false} FeedAppend(e: Editor, a: seq<byte>, b: seq<byte>)
    ensures FeedAll(e, a + b) == FeedAll(FeedAll(e, a), b)
    decreases |a|
  {
    if a == [] {
      assert a + b == b;
    } else {
      FeedAppend(Feed(e, a[0]), a[1..], b);
      assert (a + b)[1..] == a[1..] + b;
    }
  }

  lemma {:induction false} LeftIsFinal(e: Editor, bytes: seq<byte>)
    requires e.left
    ensures FeedAll(e, bytes) == e
    decreases |bytes|
  {
    if bytes != [] { LeftIsFinal(e, bytes[1..]); }
  }

  /** What one `read` makes of its bytes: the reference run, forgetting at the end of the chunk
      whether an escape sequence was open. */
  function FeedChunk(e: Editor, chunk: seq<byte>): Editor {
    FeedAll(e.(mode := Ground), chunk).(mode := Ground)
  }

  function FeedChunks(e: Editor, chunks: seq<seq<byte>>): Editor
    decreases |chunks|
  {
    if chunks == [] then e else FeedChunks(FeedChunk(e, chunks[0]), chunks[1..])
  }

  function Concat(chunks: seq<seq<byte>>): seq<byte> {
    if chunks == [] then [] else chunks[0] + Concat(chunks[1..])
  }

  /** No escape sequence is cut by a chunk boundary: at the end of each chunk none is open, or only an
      ESC that the next byte does not continue. */
  predicate NoStraddle(e: Editor, chunks: seq<seq<byte>>)
    decreases |chunks|
  {
    chunks == [] ||
    (var after := FeedAll(e.(mode := Ground), chunks[0]);
     && (after.mode.Ground? || Concat(chunks[1..]) == [] || (after.mode.AfterEsc? && !Opens(Concat(chunks[1..])[0])))
     && NoStraddle(after.(mode := Ground), chunks[1..]))
  }

  lemma {:induction false} ModeForgotten(e: Editor, bytes: seq<byte>)
    requires e.mode.Ground? || bytes == [] || (e.mode.AfterEsc? && !Opens(bytes[0]))
    ensures FeedAll(e.(mode := Ground), bytes).(mode := Ground) == FeedAll(e, bytes).(mode := Ground)
  {
    if bytes != [] {
      if e.left {
        LeftIsFinal(e, bytes);
        LeftIsFinal(e.(mode := Ground), bytes);
      } else {
        assert Feed(e.(mode := Ground), bytes[0]) == Feed(e, bytes[0]);
      }
    }
  }

  /** Chunk independence: however the stream is split between reads, as long as no escape sequence is
      cut, the lines handed on, the text left over and the decision to leave are those of the whole
      stream. */
  lemma {:induction false} ChunksDoNotMatter(e: Editor, chunks: seq<seq<byte>>)
    requires e.mode.Ground? && NoStraddle(e, chunks)
    ensures FeedChunks(e, chunks) == FeedChunk(e, Concat(chunks))
    decreases |chunks|
  {
    if chunks != [] {
      var after := FeedAll(e, chunks[0]);
      var rest := Concat(chunks[1..]);
      assert e.(mode := Ground) == e;
      ChunksDoNotMatter(after.(mode := Ground), chunks[1..]);
      FeedAppend(e, chunks[0], rest);
      ModeForgotten(after, rest);
    }
  }

  /** Bytes that do nothing outside a sequence. */
  predicate Ignored(e: Editor, b: byte) {
    && !Printable(b)
    && (b in {'\n' as int, '\r' as int, 0x7f, 0x08} ==> e.input == "")
    && (b == 0x04 ==> e.input != "")
  }

  /** A sequence cut before its next byte b: the cut goes unnoticed exactly when b would have done
      nothing outside a sequence. */
  lemma CutMattersIff(e: Editor, chunk: seq<byte>, b: byte)
    requires e.mode.Ground?
    requires var after := FeedAll(e, chunk);
             !after.left && (after.mode.InSequence? || (after.mode.AfterEsc? && Opens(b)))
    ensures FeedChunks(e, [chunk, [b]]) == FeedChunk(e, chunk + [b]) <==> Ignored(FeedAll(e, chunk), b)
  {
    var after := FeedAll(e, chunk);
    assert e.(mode := Ground) == e;
    TwoChunks(e, chunk, [b]);
    FeedAppend(e, chunk, [b]);
    FeedOne(after, b);
    FeedOne(after.(mode := Ground), b);
  }

  lemma FeedOne(e: Editor, b: byte)
    ensures FeedAll(e, [b]) == Feed(e, b)
  {
    assert [b][1..] == [];
  }

  /** A byte that a cut at this point turns into text. */
  function Telltale(m: Mode): byte
    requires !m.Ground?
  {
    if m.AfterEsc? then '[' as int else 'x' as int
  }

  /** Wherever an escape sequence is open, cutting there can make text of it. */
  lemma CutBecomesText(e: Editor, chunk: seq<byte>)
    requires e.mode.Ground? && !FeedAll(e, chunk).left && !FeedAll(e, chunk).mode.Ground?
    ensures var c := Telltale(FeedAll(e, chunk).mode);
            FeedChunks(e, [chunk, [c]]).input == FeedChunk(e, chunk + [c]).input + [c as char]
  {
    var after := FeedAll(e, chunk);
    var c := Telltale(after.mode);
    assert e.(mode := Ground) == e;
    TwoChunks(e, chunk, [c]);
    FeedAppend(e, chunk, [c]);
    FeedOne(after, c);
    FeedOne(after.(mode := Ground), c);
  }

  lemma TwoChunks(e: Editor, chunk: seq<byte>, rest: seq<byte>)
    ensures FeedChunks(e, [chunk, rest]) == FeedChunk(FeedChunk(e, chunk), rest)
  {
    var two: seq<seq<byte>> := [chunk, rest];
    assert two[1..] == [rest] && |two[1..][1..]| == 0;
    assert FeedChunks(FeedChunk(e, chunk), [rest]) == FeedChunk(FeedChunk(e, chunk), rest);
  }

  /** The exact condition: a cut goes unnoticed whatever follows if and only if no escape sequence is
      open there, or the chat was already left. */
  lemma CutHarmlessIff(e: Editor, chunk: seq<byte>)
    requires e.mode.Ground?
    ensures (forall rest :: FeedChunks(e, [chunk, rest]) == FeedChunk(e, chunk + rest)) <==>
            FeedAll(e, chunk).left || FeedAll(e, chunk).mode.Ground?
  {
    var after := FeedAll(e, chunk);
    assert e.(mode := Ground) == e;
    if after.left || after.mode.Ground? {
      forall rest ensures FeedChunks(e, [chunk, rest]) == FeedChunk(e, chunk + rest) {
        TwoChunks(e, chunk, rest);
        FeedAppend(e, chunk, rest);
        if after.left {
          LeftIsFinal(after, rest);
          LeftIsFinal(after.(mode := Ground), rest);
        }
      }
    } else {
      CutBecomesText(e, chunk);
    }
  }

  /** An arrow key cut after its first byte becomes text, whatever was typed before. */
  lemma CutArrowBecomesText(e: Editor, opener: byte, last: byte)
    requires e.mode.Ground? && !e.left && Opens(opener) && 0x41 <= last <= 0x44
    ensures FeedChunks(e, [[ESC, opener, last]]) == e
    ensures FeedChunks(e, [[ESC], [opener, last]]).input == e.input + [opener as char, last as char]
  {
    var esc: seq<byte> := [ESC];
    var half: seq<byte> := [opener, last];
    FeedAppend(e, esc, half);
    assert esc + half == [ESC, opener, last];
    FeedOne(e, ESC);
    FeedTwo(e.(mode := AfterEsc), half);
    FeedTwo(e, half);
    var one := [esc + half];
    assert |one[1..]| == 0;
    TwoChunks(e, esc, half);
    assert e.(mode := Ground) == e;
  }

  lemma FeedTwo(e: Editor, two: seq<byte>)
    requires |two| == 2
    ensures FeedAll(e, two) == Feed(Feed(e, two[0]), two[1])
  {
    var rest := two[1..];
    assert rest[0] == two[1] && rest[1..] == [];
    assert FeedAll(Feed(e, two[0]), rest) == FeedAll(Feed(Feed(e, two[0]), two[1]), rest[1..]);
  }

  // ---- what typing does ----

  predicate AtPrompt(e: Editor) {
    e.mode.Ground? && !e.left
  }

  function Keys(text: string): seq<byte>
    requires IsText(text)
  {
    seq(|text|, i requires 0 <= i < |text| => assert text[i] in text; KeyOf(text[i]))
  }

  function KeyOf(c: char): byte
    requires Printable(c as int)
  {
    c as int
  }

  /** Printable keys are appended, in order. */
  lemma {:induction false} TypingAppends(e: Editor, text: string)
    requires AtPrompt(e) && IsText(text)
    ensures FeedAll(e, Keys(text)) == e.(input := e.input + text)
  {
    if text == "" {
      assert Keys(text) == [] && e.input + text == e.input;
    } else {
      var front, last := text[..|text| - 1], text[|text| - 1];
      assert last in text && text == front + [last];
      assert forall c | c in front :: c in text;
      TypingAppends(e, front);
      var f := e.(input := e.input + front);
      assert Keys(text) == Keys(front) + [last as int];
      FeedAppend(e, Keys(front), [last as int]);
      FeedOne(f, last as int);
      assert e.input + front + [last] == e.input + text;
    }
  }

  /** Enter hands over exactly the line that was typed, and starts an empty one; the chat is left if the
      line says so. */
  lemma EnterHandsOver(e: Editor, text: string, enter: byte)
    requires AtPrompt(e) && IsText(text) && e.input + text != "" && enter in {'\n' as int, '\r' as int}
    ensures FeedAll(e, Keys(text) + [enter]) ==
            Editor("", e.lines + [e.input + text], Leaves(e.input + text), Ground)
  {
    TypingAppends(e, text);
    FeedAppend(e, Keys(text), [enter]);
    FeedOne(e.(input := e.input + text), enter);
  }

  /** Enter on an empty line does nothing. */
  lemma EmptyEnterIsIdle(e: Editor, enter: byte)
    requires AtPrompt(e) && e.input == "" && enter in {'\n' as int, '\r' as int}
    ensures Feed(e, enter) == e
  {
  }

  /** Backspace takes back the last key, and on an empty line does nothing. */
  lemma BackspaceUndoes(e: Editor, key: byte, back: byte)
    requires AtPrompt(e) && back in {0x7f, 0x08}
    ensures Printable(key) ==> Feed(Feed(e, key), back) == e
    ensures e.input == "" ==> Feed(e, back) == e
  {
    if Printable(key) {
      assert (e.input + [key as char])[..|e.input|] == e.input;
    }
  }

  /** Ctrl-D leaves the chat on an empty line only. */
  lemma CtrlDLeavesIffEmpty(e: Editor)
    requires AtPrompt(e)
    ensures Feed(e, 0x04) == e.(left := e.input == "")
  {
  }

  /** An escape sequence that is not cut leaves no trace, whatever its parameters. */
  lemma SequenceSwallowed(e: Editor, opener: byte, body: seq<byte>, last: byte)
    requires AtPrompt(e) && opener in {'[' as int, 'O' as int}
    requires (forall i :: 0 <= i < |body| ==> body[i] < 0x40 || body[i] > 0x7e) && 0x40 <= last <= 0x7e
    ensures FeedAll(e, [0x1b, opener] + body + [last]) == e
  {
    var head: seq<byte> := [0x1b, opener];
    var inside := e.(mode := InSequence);
    FeedAppend(e, head + body, [last]);
    FeedAppend(e, head, body);
    FeedTwo(e, head);
    BodySkipped(inside, body);
    FeedOne(inside, last);
    assert e.(mode := Ground) == e;
  }

  lemma {:induction false} BodySkipped(e: Editor, body: seq<byte>)
    requires e.mode.InSequence? && forall i :: 0 <= i < |body| ==> body[i] < 0x40 || body[i] > 0x7e
    ensures FeedAll(e, body) == e
    decreases |body|
  {
    if body != [] { BodySkipped(e, body[1..]); }
  }

  function Spaces(n: nat): string {
    if n == 0 then "" else " " + Spaces(n - 1)
  }

  /** A line leaves the chat exactly if, after any spaces, it is one of the three commands, alone or
      followed by a space. */
  lemma LeavesIff(line: string)
    ensures Leaves(line) <==>
            exists n: nat, command, rest :: IsExitLine(line, n, command, rest)
  {
    if Leaves(line) {
      var n, command, rest := ExitLineOf(line);
    }
    if n: nat, command, rest :| IsExitLine(line, n, command, rest) {
      ExitLineLeaves(line, n, command, rest);
    }
  }

  lemma ExitLineOf(line: string) returns (n: nat, command: string, rest: string)
    requires Leaves(line)
    ensures IsExitLine(line, n, command, rest)
  {
    n := LeadingSpaces(line);
    var after := line[n..];
    RunSplits(after);
    command := FirstRun(after);
    rest := after[|command|..];
    assert after == command + rest;
    assert Spaces(n) + (command + rest) == Spaces(n) + command + rest;
  }

  lemma ExitLineLeaves(line: string, n: nat, command: string, rest: string)
    requires IsExitLine(line, n, command, rest)
    ensures Leaves(line)
  {
    assert line == Spaces(n) + (command + rest);
    assert command != "" && command[0] == '/' && ' ' !in command;
    SpacesSkipped(n, command + rest);
    RunIs(command, rest);
  }

  predicate IsExitLine(line: string, n: nat, command: string, rest: string) {
    && line == Spaces(n) + command + rest
    && command in {"/back", "/quit", "/exit"}
    && (rest == "" || rest[0] == ' ')
  }

  lemma {:induction false} LeadingSpaces(line: string) returns (n: nat)
    ensures n <= |line| && line == Spaces(n) + line[n..]
    ensures FirstWord(line) == FirstRun(line[n..])
  {
    if line != "" && line[0] == ' ' {
      var m := LeadingSpaces(line[1..]);
      n := m + 1;
      assert line == [' '] + line[1..];
      assert line[1..][m..] == line[n..];
    } else {
      n := 0;
    }
  }

  lemma {:induction false} RunSplits(line: string)
    ensures FirstRun(line) <= line
    ensures var rest := line[|FirstRun(line)|..]; rest == "" || rest[0] == ' '
  {
    if line != "" && line[0] != ' ' {
      RunSplits(line[1..]);
      assert line == [line[0]] + line[1..];
    }
  }

  lemma {:induction false} SpacesSkipped(n: nat, line: string)
    requires line != "" && line[0] != ' '
    ensures FirstWord(Spaces(n) + line) == FirstRun(line)
  {
    if n > 0 {
      SpacesSkipped(n - 1, line);
      assert (Spaces(n) + line)[1..] == Spaces(n - 1) + line;
    } else {
      assert Spaces(0) + line == line;
    }
  }

  lemma {:induction false} RunIs(word: string, rest: string)
    requires ' ' !in word && (rest == "" || rest[0] == ' ')
    ensures FirstRun(word + rest) == word
  {
    if word == "" {
      assert word + rest == rest;
    } else {
      assert (word + rest)[1..] == word[1..] + rest;
      RunIs(word[1..], rest);
    }
  }

  predicate IsText(s: string) {
    forall c | c in s :: Printable(c as int)
  }

  ghost predicate Clean(e: Editor) {
    IsText(e.input) && forall l | l in e.lines :: l != "" && IsText(l)
  }

  lemma KeyKeepsClean(e: Editor, b: byte)
    requires Clean(e)
    ensures Clean(Key(e, b))
  {
    var f := Key(e, b);
    forall c | c in f.input ensures Printable(c as int) {
      if c !in e.input { assert c == b as char; }
    }
    forall l | l in f.lines ensures l != "" && IsText(l) {
      assert l in e.lines || l == e.input;
    }
  }

  /** The line and everything handed on consist of printable ASCII, and no empty line is handed on. */
  lemma {:induction false} OnlyPrintable(e: Editor, bytes: seq<byte>)
    requires Clean(e)
    ensures Clean(FeedAll(e, bytes))
    decreases |bytes|
  {
    if bytes != [] {
      KeyKeepsClean(e, bytes[0]);
      OnlyPrintable(Feed(e, bytes[0]), bytes[1..]);
    }
  }

  /** The state `run_chat` keeps between reads. */
  class ChatInput {
    var input: string
    var lines: seq<string>
    var left: bool

    ghost function Value(): Editor
      reads this
    {
      Editor(input, lines, left, Ground)
    }

    constructor ()
      ensures Value() == Editor("", [], false, Ground)
    {
      input, lines, left := "", [], false;
    }

    /** The scan of one read. An escape sequence is skipped inside it by moving the index ahead. */
    method Scan(buf: array<byte>, n: nat)
      requires n <= buf.Length && !left
      modifies this
      ensures Value() == FeedChunk(old(Value()), buf[..n])
    {
      var i := 0;
      ghost var start := Value();
      while i < n
        invariant 0 <= i <= n + 1 && !left
        invariant FeedChunk(start, buf[..n]) == FeedChunk(Value(), if i <= n then buf[i..n] else [])
        decreases n - i
      {
        var c := buf[i];
        ghost var e := Value();
        assert buf[i..n][0] == c && buf[i..n][1..] == buf[i + 1..n];
        if c == '\n' as int || c == '\r' as int {
          var line := input;
          input := "";
          if line != "" {
            lines := lines + [line];
            left := Leaves(line);
            if left {
              LeftIsFinal(Value(), buf[i + 1..n]);
              return;
            }
          }
        } else if c == 0x7f || c == 0x08 {
          if input != "" {
            input := input[..|input| - 1];
          }
        } else if c == ESC {
          if i + 1 < n && Opens(buf[i + 1]) {
            ghost var skipping := e.(mode := InSequence);
            assert buf[i + 1..n][0] == buf[i + 1] && buf[i + 1..n][1..] == buf[i + 2..n];
            assert FeedAll(e, buf[i..n]) == FeedAll(skipping, buf[i + 2..n]);
            i := i + 2;
            while i < n && !Finishes(buf[i])
              invariant i <= n && FeedChunk(start, buf[..n]) == FeedAll(skipping, buf[i..n]).(mode := Ground)
            {
              assert buf[i..n][0] == buf[i] && buf[i..n][1..] == buf[i + 1..n];
              i := i + 1;
            }
            if i < n {
              assert buf[i..n][0] == buf[i] && buf[i..n][1..] == buf[i + 1..n];
            }
          } else {
            ModeForgotten(e.(mode := AfterEsc), buf[i + 1..n]);
          }
        } else if c == 0x04 {
          if input == "" {
            left := true;
            LeftIsFinal(Value(), buf[i + 1..n]);
            return;
          }
        } else if Printable(c) {
          input := input + [c as char];
        }
        i := i + 1;
      }
    }
  }
}
