/**
 * Server-sent event lines: ParseSSEDataLine (internal/translator/translator.go),
 * isSSEComment and forwardSSEComment (internal/handler/helpers.go), and the
 * splitting of a byte stream into lines that both response adapters do.
 * A byte is a char.
 */
module SseLines {
  // ---------------------------------------------------------------- white space

  predicate IsSpace(c: char) { c in " \t\n\r" || c as int == 11 || c as int == 12 }

  ghost predicate AllSpace(s: string) { forall i :: 0 <= i < |s| ==> IsSpace(s[i]) }

  /** Neither end is white space. */
  predicate IsTrimmed(s: string) { s == "" || (!IsSpace(s[0]) && !IsSpace(s[|s| - 1])) }

  function TrimLeft(s: string): string {
    if s != "" && IsSpace(s[0]) then TrimLeft(s[1..]) else s
  }

  function TrimRight(s: string): string {
    if s != "" && IsSpace(s[|s| - 1]) then TrimRight(s[..|s| - 1]) else s
  }

  function TrimSpace(s: string): string { TrimRight(TrimLeft(s)) }

  lemma {:induction false} TrimLeftDrops(pre: string, s: string)
    requires AllSpace(pre) && (s == "" || !IsSpace(s[0]))
    ensures TrimLeft(pre + s) == s
  {
    if pre == "" {
      assert pre + s == s;
    } else {
      assert (pre + s)[1..] == pre[1..] + s;
      TrimLeftDrops(pre[1..], s);
    }
  }

  lemma {:induction false} TrimRightDrops(s: string, post: string)
    requires AllSpace(post) && (s == "" || !IsSpace(s[|s| - 1]))
    ensures TrimRight(s + post) == s
  {
    if post == "" {
      assert s + post == s;
    } else {
      assert (s + post)[..|s + post| - 1] == s + post[..|post| - 1];
      TrimRightDrops(s, post[..|post| - 1]);
    }
  }

  /** Surrounding white space goes, and nothing else does. */
  lemma TrimSpaceDrops(pre: string, s: string, post: string)
    requires AllSpace(pre) && AllSpace(post) && IsTrimmed(s)
    ensures TrimSpace(pre + s + post) == s
  {
    hide TrimLeft, TrimRight;
    if s == "" {
      assert pre + s + post == (pre + post) + "";
      TrimLeftDrops(pre + post, "");
      TrimRightDrops("", "");
      assert "" + "" == "";
    } else {
      assert pre + s + post == pre + (s + post);
      TrimLeftDrops(pre, s + post);
      TrimRightDrops(s, post);
    }
  }

  lemma {:induction false} TrimLeftSplits(s: string) returns (pre: string)
    ensures s == pre + TrimLeft(s) && AllSpace(pre)
    ensures TrimLeft(s) == "" || !IsSpace(TrimLeft(s)[0])
  {
    if s != "" && IsSpace(s[0]) {
      var rest := TrimLeftSplits(s[1..]);
      pre := [s[0]] + rest;
    } else {
      pre := "";
    }
  }

  lemma {:induction false} TrimRightSplits(s: string) returns (post: string)
    ensures s == TrimRight(s) + post && AllSpace(post)
    ensures TrimRight(s) == "" || !IsSpace(TrimRight(s)[|TrimRight(s)| - 1])
  {
    if s != "" && IsSpace(s[|s| - 1]) {
      var rest := TrimRightSplits(s[..|s| - 1]);
      post := rest + [s[|s| - 1]];
    } else {
      post := "";
    }
  }

  lemma TrimSpaceSplits(s: string) returns (pre: string, post: string)
    ensures s == pre + TrimSpace(s) + post && AllSpace(pre) && AllSpace(post) && IsTrimmed(TrimSpace(s))
  {
    hide TrimLeft, TrimRight;
    pre := TrimLeftSplits(s);
    post := TrimRightSplits(TrimLeft(s));
    var core := TrimSpace(s);
    if core != "" { assert TrimLeft(s)[0] == core[0]; }
  }

  // ---------------------------------------------------------------- data lines and comments

  datatype Field = NotData | Done | Data(payload: string)

  const DATA := "data:"
  const DONE := "[DONE]"

  predicate HasPrefix(s: string, prefix: string) { |prefix| <= |s| && s[..|prefix|] == prefix }

  function TrimCR(line: string): string {
    if line != "" && line[|line| - 1] == '\r' then line[..|line| - 1] else line
  }

  function ParseSSEDataLine(line: string): Field {
    var trimmed := TrimSpace(TrimCR(line));
    if !HasPrefix(trimmed, DATA) then NotData
    else
      var payload := TrimSpace(trimmed[5..]);
      if payload == "" then NotData
      else if payload == DONE then Done
      else Data(payload)
  }

  predicate IsSSEComment(line: string) {
    var trimmed := TrimSpace(line);
    |trimmed| > 0 && trimmed[0] == ':'
  }

  /** What forwardSSEComment writes downstream. */
  function CommentFrame(line: string): string { TrimSpace(line) + "\n\n" }

  lemma CarriageReturnIsSpace(line: string)
    ensures TrimSpace(TrimCR(line)) == TrimSpace(line)
  {
    hide TrimSpace;
    if TrimCR(line) != line {
      var pre, post := TrimSpaceSplits(TrimCR(line));
      var core := TrimSpace(TrimCR(line));
      assert line == TrimCR(line) + "\r" == pre + core + (post + "\r");
      TrimSpaceDrops(pre, core, post + "\r");
    }
  }

  /** A data line written with any surrounding white space, including the CR of CRLF, is read back exactly. */
  lemma DataLineRoundTrip(pre: string, gap: string, payload: string, post: string)
    requires AllSpace(pre) && AllSpace(gap) && AllSpace(post)
    requires payload != "" && IsTrimmed(payload)
    ensures ParseSSEDataLine(pre + DATA + gap + payload + post) == if payload == DONE then Done else Data(payload)
  {
    hide TrimSpace;
    var line := pre + DATA + gap + payload + post;
    var core := DATA + gap + payload;
    CarriageReturnIsSpace(line);
    assert line == pre + core + post;
    TrimSpaceDrops(pre, core, post);
    assert core[..5] == DATA && core[5..] == gap + payload == gap + payload + "";
    TrimSpaceDrops(gap, payload, "");
  }

  /** Only the front is trimmed off a text that ends in no white space. */
  lemma TrimSpaceFront(s: string) returns (pre: string)
    requires s == "" || !IsSpace(s[|s| - 1])
    ensures s == pre + TrimSpace(s) && AllSpace(pre) && IsTrimmed(TrimSpace(s))
  {
    hide TrimSpace;
    var post;
    pre, post := TrimSpaceSplits(s);
    EndsInSpace(pre + TrimSpace(s), post);
  }

  lemma EndsInSpace(front: string, post: string)
    requires AllSpace(post)
    ensures post == "" || IsSpace((front + post)[|front + post| - 1])
  {
    if post != "" { assert (front + post)[|front + post| - 1] == post[|post| - 1]; }
  }

  lemma DataLineParts(core: string) returns (gap: string, payload: string)
    requires IsTrimmed(core) && HasPrefix(core, DATA)
    ensures core == DATA + gap + payload && AllSpace(gap)
    ensures IsTrimmed(payload) && payload == TrimSpace(core[5..])
  {
    hide TrimSpace;
    gap := TrimSpaceFront(core[5..]);
    payload := TrimSpace(core[5..]);
    assert core == core[..5] + core[5..];
  }

  /** And nothing else is a data line. */
  lemma OnlyDataLines(line: string) returns (pre: string, gap: string, payload: string, post: string)
    ensures ParseSSEDataLine(line) != NotData ==>
      && line == pre + DATA + gap + payload + post
      && AllSpace(pre) && AllSpace(gap) && AllSpace(post)
      && payload != "" && IsTrimmed(payload)
      && ParseSSEDataLine(line) == if payload == DONE then Done else Data(payload)
  {
    hide TrimSpace, AllSpace, IsTrimmed, HasPrefix, TrimCR;
    pre, gap, payload, post := "", "", "", "";
    CarriageReturnIsSpace(line);
    var core := TrimSpace(line);
    if HasPrefix(core, DATA) {
      pre, post := TrimSpaceSplits(line);
      gap, payload := DataLineParts(core);
      assert line == pre + DATA + gap + payload + post;
    }
  }

  // ---------------------------------------------------------------- lines

  /** The complete lines of a stream, without their newlines ... */
  function Lines(s: string): seq<string> {
    if s == "" then []
    else if s[|s| - 1] == '\n' then Lines(s[..|s| - 1]) + [Tail(s[..|s| - 1])]
    else Lines(s[..|s| - 1])
  }

  /** ... and what follows the last newline. */
  function Tail(s: string): string {
    if s == "" then ""
    else if s[|s| - 1] == '\n' then ""
    else Tail(s[..|s| - 1]) + [s[|s| - 1]]
  }

  /** The text of some lines, each with its newline. */
  function Text(lines: seq<string>): string {
    if lines == [] then "" else lines[0] + "\n" + Text(lines[1..])
  }

  /** Splitting a stream in two leaves its lines alone, if the rest of the first half is kept. */
  lemma {:induction false} LinesConcat(a: string, b: string)
    ensures Lines(a + b) == Lines(a) + Lines(Tail(a) + b)
    ensures Tail(a + b) == Tail(Tail(a) + b)
  {
    if b == "" {
      assert a + b == a && Tail(a) + b == Tail(a);
      TailIsOneLine(a);
    } else {
      var init := b[..|b| - 1];
      LinesConcat(a, init);
      assert (a + b)[..|a + b| - 1] == a + init;
      assert (Tail(a) + b)[..|Tail(a) + b| - 1] == Tail(a) + init;
    }
  }

  lemma {:induction false} TailIsOneLine(s: string)
    ensures Lines(Tail(s)) == [] && Tail(Tail(s)) == Tail(s)
    ensures forall i :: 0 <= i < |Tail(s)| ==> Tail(s)[i] != '\n'
  {
    if s != "" && s[|s| - 1] != '\n' {
      TailIsOneLine(s[..|s| - 1]);
      assert Tail(s)[..|Tail(s)| - 1] == Tail(s[..|s| - 1]);
    }
  }

  lemma {:induction false} NoNewline(s: string)
    requires forall i :: 0 <= i < |s| ==> s[i] != '\n'
    ensures Lines(s) == [] && Tail(s) == s
  {
    if s != "" { NoNewline(s[..|s| - 1]); }
  }

  /** The first newline ends the first line. */
  lemma FirstLine(s: string, idx: nat)
    requires idx < |s| && s[idx] == '\n' && (forall i :: 0 <= i < idx ==> s[i] != '\n')
    ensures Lines(s) == [s[..idx]] + Lines(s[idx + 1..])
    ensures Tail(s) == Tail(s[idx + 1..])
  {
    hide Lines, Tail;
    LinesConcat(s[..idx + 1], s[idx + 1..]);
    assert s == s[..idx + 1] + s[idx + 1..];
    OneLine(s[..idx]);
    assert s[..idx + 1] == s[..idx] + "\n";
    assert "" + s[idx + 1..] == s[idx + 1..];
  }

  lemma OneLine(s: string)
    requires forall i :: 0 <= i < |s| ==> s[i] != '\n'
    ensures Lines(s + "\n") == [s] && Tail(s + "\n") == ""
  {
    NoNewline(s);
    assert (s + "\n")[..|s + "\n"| - 1] == s;
  }

  /** A last line without its newline is completed by one. */
  lemma NewlineCompletes(s: string)
    ensures Lines(s + "\n") == Lines(s) + [Tail(s)] && Tail(s + "\n") == ""
  {
    assert (s + "\n")[..|s + "\n"| - 1] == s;
  }

  /** bytes.IndexByte(s, '\n'). */
  method IndexNewline(s: string) returns (idx: int)
    ensures -1 <= idx < |s|
    ensures idx >= 0 ==> s[idx] == '\n'
    ensures forall i :: 0 <= i < (if idx < 0 then |s| else idx) ==> s[i] != '\n'
  {
    for i := 0 to |s|
      invariant forall j :: 0 <= j < i ==> s[j] != '\n'
    {
      if s[i] == '\n' { return i; }
    }
    return -1;
  }

  /** The stream is its lines and its rest, and no line or rest holds a newline. */
  lemma {:induction false} LinesAreExact(s: string)
    ensures s == Text(Lines(s)) + Tail(s)
    ensures forall i, j :: 0 <= i < |Lines(s)| && 0 <= j < |Lines(s)[i]| ==> Lines(s)[i][j] != '\n'
    ensures forall j :: 0 <= j < |Tail(s)| ==> Tail(s)[j] != '\n'
  {
    if s != "" {
      LinesAreExact(s[..|s| - 1]);
      if s[|s| - 1] == '\n' {
        TextPush(Lines(s[..|s| - 1]), Tail(s[..|s| - 1]));
      }
    }
  }

  lemma {:induction false} TextPush(lines: seq<string>, line: string)
    ensures Text(lines + [line]) == Text(lines) + line + "\n"
  {
    if lines != [] {
      assert (lines + [line])[1..] == lines[1..] + [line];
      TextPush(lines[1..], line);
    } else {
      assert (lines + [line])[1..] == [];
    }
  }

  /** Lines written out and read back. */
  lemma {:induction false} LinesOfText(lines: seq<string>, rest: string)
    requires forall i, j :: 0 <= i < |lines| && 0 <= j < |lines[i]| ==> lines[i][j] != '\n'
    requires forall j :: 0 <= j < |rest| ==> rest[j] != '\n'
    ensures Lines(Text(lines) + rest) == lines && Tail(Text(lines) + rest) == rest
  {
    hide Lines, Tail;
    if lines == [] {
      assert Text(lines) + rest == rest;
      NoNewline(rest);
    } else {
      var s, idx := Text(lines) + rest, |lines[0]|;
      assert s == lines[0] + "\n" + (Text(lines[1..]) + rest);
      assert s[..idx] == lines[0] && s[idx + 1..] == Text(lines[1..]) + rest;
      FirstLine(s, idx);
      LinesOfText(lines[1..], rest);
    }
  }

  // ---------------------------------------------------------------- the translator

  /** One TranslateChunk call: the next state, the events to write, and its two flags. */
  datatype Step<T> = Step(next: T, events: string, finished: bool, failed: bool)

  /** The chunk that a data line hands to the translator. */
  function Chunk(line: string): string
    requires ParseSSEDataLine(line) != NotData
  {
    match ParseSSEDataLine(line)
    case Data(payload) => payload
    case Done => DONE
  }

  /** All chunks of a run, in the order written. */
  function Concat(chunks: seq<string>): string {
    if chunks == [] then "" else Concat(chunks[..|chunks| - 1]) + chunks[|chunks| - 1]
  }
}
