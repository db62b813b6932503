/** The OpenAI Responses adapter (internal/handler/chat_responses_adapter.go). */
module ResponsesAdapter {
  import opened Wrappers
  import opened SseLines

  datatype Config<!T> = Config(
    step: (T, string) -> Step<T>,
    convert: string -> Option<string>,
    isStream: bool)

  /** The translator, the chunks it was given, the writes made downstream, and the finished latch. */
  datatype Feed<T> = Feed(translator: T, fed: seq<string>, out: seq<string>, finished: bool)

  datatype State<T> = State(feed: Feed<T>, scanBuf: string, body: string, statusCode: int, headerWritten: bool)

  predicate Success(status: int) { 200 <= status < 300 }

  function Fresh<T>(translator: T): State<T> { State(Feed(translator, [], [], false), "", "", 200, false) }

  // ---------------------------------------------------------------- one line

  function Stepped<T>(cfg: Config<T>, feed: Feed<T>, chunk: string): Feed<T> {
    var r := cfg.step(feed.translator, chunk);
    if r.failed then feed.(translator := r.next, fed := feed.fed + [chunk])
    else Feed(r.next, feed.fed + [chunk], if r.events != "" then feed.out + [r.events] else feed.out, r.finished)
  }

  function FeedLine<T>(cfg: Config<T>, feed: Feed<T>, line: string): (r: Feed<T>)
    ensures feed.finished ==> r == feed
    ensures |r.fed| >= |feed.fed|
    ensures Fails(cfg, feed, line) ==> !r.finished && |r.fed| == |feed.fed| + 1
  {
    if feed.finished then feed
    else if ParseSSEDataLine(line) != NotData then Stepped(cfg, feed, Chunk(line))
    else if IsSSEComment(line) then feed.(out := feed.out + [CommentFrame(line)])
    else feed
  }

  predicate Fails<T>(cfg: Config<T>, feed: Feed<T>, line: string) {
    !feed.finished && ParseSSEDataLine(line) != NotData && cfg.step(feed.translator, Chunk(line)).failed
  }

  // ---------------------------------------------------------------- many lines

  /** All lines in order, going on after a failing one. */
  function FeedLines<T>(cfg: Config<T>, feed: Feed<T>, lines: seq<string>): (r: Feed<T>)
    ensures feed.finished ==> r == feed
    ensures |r.fed| >= |feed.fed|
    decreases |lines|
  {
    if lines == [] then feed else FeedLines(cfg, FeedLine(cfg, feed, lines[0]), lines[1..])
  }

  /** How many lines the translator rejects along the way. */
  function Failures<T>(cfg: Config<T>, feed: Feed<T>, lines: seq<string>): (n: nat)
    ensures feed.finished ==> n == 0
    decreases |lines|
  {
    if lines == [] then 0
    else (if Fails(cfg, feed, lines[0]) then 1 else 0) + Failures(cfg, FeedLine(cfg, feed, lines[0]), lines[1..])
  }

  /** The line loop of Write: where it stops, which lines it leaves, and whether it stopped on an error. */
  datatype Drained<T> = Drained(feed: Feed<T>, rest: seq<string>, failed: bool)

  function Drain<T>(cfg: Config<T>, feed: Feed<T>, lines: seq<string>): Drained<T>
    decreases |lines|
  {
    if lines == [] then Drained(feed, [], false)
    else
      var next := FeedLine(cfg, feed, lines[0]);
      if Fails(cfg, feed, lines[0]) then Drained(next, lines[1..], true)
      else if next.finished then Drained(next, lines[1..], false)
      else Drain(cfg, next, lines[1..])
  }

  // ---------------------------------------------------------------- specification

  function Written<T>(cfg: Config<T>, s: State<T>, p: string): State<T> {
    if !Success(s.statusCode) then s.(feed := s.feed.(out := s.feed.out + [p]))
    else if s.feed.finished then s
    else if cfg.isStream then
      var d := Drain(cfg, s.feed, Lines(s.scanBuf + p));
      s.(feed := d.feed,
         scanBuf := if d.feed.finished then "" else Text(d.rest) + Tail(s.scanBuf + p),
         statusCode := if s.headerWritten then s.statusCode else 200,
         headerWritten := true)
    else s.(body := s.body + p)
  }

  predicate WriteFails<T>(cfg: Config<T>, s: State<T>, p: string) {
    Success(s.statusCode) && !s.feed.finished && cfg.isStream && Drain(cfg, s.feed, Lines(s.scanBuf + p)).failed
  }

  function WrittenAll<T>(cfg: Config<T>, s: State<T>, ps: seq<string>): State<T> {
    if ps == [] then s else Written(cfg, WrittenAll(cfg, s, ps[..|ps| - 1]), ps[|ps| - 1])
  }

  const CLOSING := "data: [DONE]\n\n"

  function Finished<T>(cfg: Config<T>, s: State<T>): State<T> {
    if s.feed.finished || !Success(s.statusCode) then s
    else if cfg.isStream then
      var ended := if s.scanBuf != "" then Written(cfg, s, "\n") else s;
      if s.scanBuf != "" && WriteFails(cfg, s, "\n") then ended
      else if ended.feed.finished then ended
      else Written(cfg, ended, CLOSING)
    else if s.body == "" then s.(feed := s.feed.(finished := true))
    else
      var body := match cfg.convert(s.body) { case Some(converted) => converted case None => s.body };
      s.(headerWritten := true, feed := s.feed.(finished := true, out := s.feed.out + [body]))
  }

  // ---------------------------------------------------------------- the adapter

  class ResponsesResponseAdapter<T> {
    const cfg: Config<T>
    var sseTranslator: T
    var scanBuf: string
    var buf: string
    var statusCode: int
    var headerWritten: bool
    var finished: bool
    /** Every Write made on the underlying ResponseWriter. */
    var out: seq<string>
    /** Every chunk given to the translator. */
    ghost var fed: seq<string>

    ghost function View(): State<T>
      reads this
    {
      State(Feed(sseTranslator, fed, out, finished), scanBuf, buf, statusCode, headerWritten)
    }

    constructor (cfg: Config<T>, translator: T)
      ensures this.cfg == cfg && View() == Fresh(translator)
    {
      this.cfg := cfg;
      sseTranslator, scanBuf, buf := translator, "", "";
      statusCode, headerWritten, finished, out, fed := 200, false, false, [], [];
    }

    method WriteHeader(status: int)
      modifies this`statusCode, this`headerWritten
      ensures statusCode == status
      ensures headerWritten == (old(headerWritten) || status < 200 || status >= 300 || cfg.isStream)
    {
      statusCode := status;
      if status < 200 || status >= 300 {
        headerWritten := true;
        return;
      }
      if cfg.isStream {
        headerWritten := true;
      }
    }

    method Write(p: string) returns (n: nat, err: bool)
      modifies this
      ensures View() == Written(cfg, old(View()), p)
      ensures err == WriteFails(cfg, old(View()), p)
      ensures n == if err then 0 else |p|
    {
      hide ParseSSEDataLine, IsSSEComment, Lines, Tail, Text, Drain;
      if statusCode < 200 || statusCode >= 300 {
        out := out + [p];
        return |p|, false;
      }
      if finished {
        return |p|, false;
      }
      if !cfg.isStream {
        buf := buf + p;
        return |p|, false;
      }
      if !headerWritten {
        WriteHeader(200);
      }
      scanBuf := scanBuf + p;
      err := DrainLines();
      n := if err then 0 else |p|;
    }

    /** The line loop of Write. */
    method DrainLines() returns (err: bool)
      requires !finished
      modifies this`scanBuf, this`sseTranslator, this`out, this`fed, this`finished
      ensures var d := Drain(cfg, old(View()).feed, Lines(old(scanBuf)));
        && View().feed == d.feed && err == d.failed
        && scanBuf == if d.feed.finished then "" else Text(d.rest) + Tail(old(scanBuf))
    {
      hide ParseSSEDataLine, IsSSEComment, Lines, Tail, Text, Chunk;
      ghost var feed0, all := View().feed, scanBuf;
      while true
        invariant !finished
        invariant Drain(cfg, feed0, Lines(all)) == Drain(cfg, View().feed, Lines(scanBuf))
        invariant Tail(scanBuf) == Tail(all)
        decreases |scanBuf|
      {
        var idx := IndexNewline(scanBuf);
        if idx < 0 {
          NoNewline(scanBuf);
          LinesAreExact(scanBuf);
          return false;
        }
        var line := scanBuf[..idx];
        FirstLine(scanBuf, idx);
        assert Lines(scanBuf)[1..] == Lines(scanBuf[idx + 1..]);
        scanBuf := scanBuf[idx + 1..];
        if ParseSSEDataLine(line) != NotData {
          var chunk := Chunk(line);
          var r := cfg.step(sseTranslator, chunk);
          sseTranslator, fed := r.next, fed + [chunk];
          if r.failed {
            LinesAreExact(scanBuf);
            return true;
          }
          if |r.events| > 0 {
            out := out + [r.events];
          }
          if r.finished {
            finished := true;
            scanBuf := "";
            return false;
          }
          continue;
        }
        if IsSSEComment(line) {
          out := out + [TrimSpace(line) + "\n\n"];
        }
      }
    }

    method Finish()
      modifies this
      ensures View() == Finished(cfg, old(View()))
    {
      hide Written, WriteFails;
      if finished || statusCode < 200 || statusCode >= 300 {
        return;
      }
      if cfg.isStream {
        if |scanBuf| > 0 {
          var _, err := Write("\n");
          if err {
            return;
          }
        }
        if !finished {
          var _, _ := Write("data: [DONE]\n\n");
        }
        return;
      }
      finished := true;
      if |buf| == 0 {
        return;
      }
      headerWritten := true;
      match cfg.convert(buf)
      case None => out := out + [buf];
      case Some(converted) => out := out + [converted];
    }
  }

  // ---------------------------------------------------------------- the latch

  /** Once the translator has finished nothing is stepped or written any more, by Write or by Finish. */
  lemma {:induction false} NothingAfterFinish<T>(cfg: Config<T>, s: State<T>, ps: seq<string>)
    requires Success(s.statusCode) && s.feed.finished
    ensures WrittenAll(cfg, s, ps) == s && Finished(cfg, WrittenAll(cfg, s, ps)) == s
  {
    if ps != [] { NothingAfterFinish(cfg, s, ps[..|ps| - 1]); }
  }

  // ---------------------------------------------------------------- lines in sequence

  lemma {:induction false} FeedLinesConcat<T>(cfg: Config<T>, feed: Feed<T>, a: seq<string>, b: seq<string>)
    ensures FeedLines(cfg, feed, a + b) == FeedLines(cfg, FeedLines(cfg, feed, a), b)
    ensures Failures(cfg, feed, a + b) == Failures(cfg, feed, a) + Failures(cfg, FeedLines(cfg, feed, a), b)
    decreases |a|
  {
    hide FeedLine, Fails;
    if a == [] {
      assert a + b == b;
    } else {
      assert (a + b)[1..] == a[1..] + b;
      FeedLinesConcat(cfg, FeedLine(cfg, feed, a[0]), a[1..], b);
    }
  }

  lemma {:induction false} DrainKeeps<T>(cfg: Config<T>, feed: Feed<T>, lines: seq<string>)
    requires !feed.finished
    ensures var d := Drain(cfg, feed, lines);
      && FeedLines(cfg, d.feed, d.rest) == FeedLines(cfg, feed, lines)
      && Failures(cfg, feed, lines) == (if d.failed then 1 else 0) + Failures(cfg, d.feed, d.rest)
      && (d.failed ==> !d.feed.finished)
      && (!d.failed ==> d.rest == [] || d.feed.finished)
      && |d.rest| <= |lines| && d.rest == lines[|lines| - |d.rest|..]
    decreases |lines|
  {
    hide FeedLine;
    if lines != [] && !Fails(cfg, feed, lines[0]) && !FeedLine(cfg, feed, lines[0]).finished {
      DrainKeeps(cfg, FeedLine(cfg, feed, lines[0]), lines[1..]);
    }
  }

  /** Lines of which only the last may fail are all fed. */
  lemma {:induction false} DrainAll<T>(cfg: Config<T>, feed: Feed<T>, lines: seq<string>, last: string)
    requires !feed.finished && Failures(cfg, feed, lines) == 0
    ensures var d, before := Drain(cfg, feed, lines + [last]), FeedLines(cfg, feed, lines);
      d.feed == FeedLine(cfg, before, last) && d.failed == Fails(cfg, before, last)
    decreases |lines|
  {
    hide FeedLine;
    if lines == [] {
      assert lines + [last] == [last];
    } else {
      assert (lines + [last])[1..] == lines[1..] + [last];
      if !FeedLine(cfg, feed, lines[0]).finished {
        DrainAll(cfg, FeedLine(cfg, feed, lines[0]), lines[1..], last);
      }
    }
  }

  /** A failure among lines that are not the last stops the loop before the last. */
  lemma {:induction false} DrainStops<T>(cfg: Config<T>, feed: Feed<T>, lines: seq<string>, last: string)
    requires !feed.finished && Failures(cfg, feed, lines) >= 1
    ensures var d := Drain(cfg, feed, lines + [last]);
      d.failed && !d.feed.finished && |d.feed.fed| <= |FeedLines(cfg, feed, lines).fed|
    decreases |lines|
  {
    hide FeedLine, Fails;
    assert (lines + [last])[1..] == lines[1..] + [last];
    if !Fails(cfg, feed, lines[0]) && !FeedLine(cfg, feed, lines[0]).finished {
      DrainStops(cfg, FeedLine(cfg, feed, lines[0]), lines[1..], last);
    }
  }

  // ---------------------------------------------------------------- chunking

  /** What a whole stream x ought to do, from a given start and with Finish at the end. */
  function Ideal<T>(cfg: Config<T>, feed: Feed<T>, x: string): Feed<T> {
    var complete := FeedLines(cfg, feed, Lines(x));
    var all := FeedLine(cfg, complete, Tail(x));
    if complete.finished || Fails(cfg, complete, Tail(x)) || all.finished then all
    else Stepped(cfg, all, DONE)
  }

  /** After the writes of x: what is still buffered is what the loop has not reached. */
  ghost predicate Caught<T>(cfg: Config<T>, start: Feed<T>, x: string, s: State<T>) {
    && Success(s.statusCode)
    && FeedLines(cfg, s.feed, Lines(s.scanBuf)) == FeedLines(cfg, start, Lines(x))
    && (s.feed.finished ==> s.scanBuf == "")
    && (!s.feed.finished ==>
         && Tail(s.scanBuf) == Tail(x)
         && Failures(cfg, start, Lines(x)) >=
            Failures(cfg, s.feed, Lines(s.scanBuf)) + (if Lines(s.scanBuf) != [] then 1 else 0))
  }

  lemma CaughtAfterWrite<T>(cfg: Config<T>, start: Feed<T>, x: string, s: State<T>, p: string)
    requires cfg.isStream && Caught(cfg, start, x, s)
    ensures Caught(cfg, start, x + p, Written(cfg, s, p))
  {
    hide Lines, Tail, Text, FeedLines, Failures, Drain;
    LinesConcat(x, p);
    var more := Lines(Tail(x) + p);
    FeedLinesConcat(cfg, start, Lines(x), more);
    if s.feed.finished {
      NoNewline("");
    } else {
      LinesConcat(s.scanBuf, p);
      var lines := Lines(s.scanBuf + p);
      FeedLinesConcat(cfg, s.feed, Lines(s.scanBuf), more);
      DrainKeeps(cfg, s.feed, lines);
      var d := Drain(cfg, s.feed, lines);
      LinesAreExact(s.scanBuf + p);
      LinesOfText(d.rest, Tail(s.scanBuf + p));
      NoNewline("");
      FeedNothing(cfg, d.feed);
    }
  }

  lemma FeedNothing<T>(cfg: Config<T>, feed: Feed<T>)
    ensures FeedLines(cfg, feed, []) == feed && Failures(cfg, feed, []) == 0
  {
  }

  lemma {:induction false} CaughtAfterWrites<T>(cfg: Config<T>, s: State<T>, ps: seq<string>)
    requires cfg.isStream && Success(s.statusCode) && s.scanBuf == ""
    ensures Caught(cfg, s.feed, Concat(ps), WrittenAll(cfg, s, ps))
  {
    hide Written, FeedLines, Failures;
    if ps == [] {
      NoNewline("");
      FeedNothing(cfg, s.feed);
    } else {
      CaughtAfterWrites(cfg, s, ps[..|ps| - 1]);
      hide Caught;
      CaughtAfterWrite(cfg, s.feed, Concat(ps[..|ps| - 1]), WrittenAll(cfg, s, ps[..|ps| - 1]), ps[|ps| - 1]);
    }
  }

  /** Finish catches up, if nothing that is still buffered fails. */
  lemma FinishIsIdeal<T>(cfg: Config<T>, start: Feed<T>, x: string, s: State<T>)
    requires cfg.isStream && Caught(cfg, start, x, s)
    requires Failures(cfg, s.feed, Lines(s.scanBuf)) == 0
    ensures Finished(cfg, s).feed == Ideal(cfg, start, x)
  {
    hide Lines, Tail, Text, FeedLines, Failures, Drain, FeedLine, Stepped;
    NoNewline("");
    FeedNothing(cfg, s.feed);
    if !s.feed.finished {
      var ended := if s.scanBuf != "" then Written(cfg, s, "\n") else s;
      if s.scanBuf == "" {
        BlankIsNothing(cfg, s.feed);
      } else {
        NewlineCompletes(s.scanBuf);
        DrainAll(cfg, s.feed, Lines(s.scanBuf), Tail(s.scanBuf));
        AfterNewline(cfg, s);
      }
      if !ended.feed.finished && ended.scanBuf == "" { Closing(cfg, ended); }
    }
  }

  lemma BlankIsNothing<T>(cfg: Config<T>, feed: Feed<T>)
    ensures FeedLine(cfg, feed, "") == feed && !Fails(cfg, feed, "")
  {
  }

  /** After the completing newline nothing is buffered, unless that line failed. */
  lemma AfterNewline<T>(cfg: Config<T>, s: State<T>)
    requires cfg.isStream && Success(s.statusCode) && !s.feed.finished
    ensures Written(cfg, s, "\n").feed == Drain(cfg, s.feed, Lines(s.scanBuf) + [Tail(s.scanBuf)]).feed
    ensures WriteFails(cfg, s, "\n") == Drain(cfg, s.feed, Lines(s.scanBuf) + [Tail(s.scanBuf)]).failed
    ensures !WriteFails(cfg, s, "\n") ==> Written(cfg, s, "\n").scanBuf == ""
    ensures Success(Written(cfg, s, "\n").statusCode)
  {
    hide Lines, Tail, Drain;
    NewlineCompletes(s.scanBuf);
    DrainKeeps(cfg, s.feed, Lines(s.scanBuf) + [Tail(s.scanBuf)]);
  }

  /** The closing write is one [DONE] step. */
  lemma Closing<T>(cfg: Config<T>, s: State<T>)
    requires cfg.isStream && Success(s.statusCode) && !s.feed.finished && s.scanBuf == ""
    ensures Written(cfg, s, CLOSING).feed == Stepped(cfg, s.feed, DONE)
  {
    hide Lines, Tail, Text, Stepped, ParseSSEDataLine;
    assert "" + CLOSING == CLOSING;
    ClosingLines();
    var lines := Lines(CLOSING);
    assert lines[1..] == [""];
    DrainBlank(cfg, FeedLine(cfg, s.feed, lines[0]));
  }

  lemma DrainBlank<T>(cfg: Config<T>, feed: Feed<T>)
    ensures Drain(cfg, feed, [""]).feed == feed
  {
    BlankIsNothing(cfg, feed);
    assert [""][1..] == [];
  }

  lemma ClosingLines()
    ensures Lines(CLOSING) == ["data: [DONE]", ""]
    ensures ParseSSEDataLine("data: [DONE]") == Done
  {
    hide Lines, Tail, ParseSSEDataLine;
    FirstLine(CLOSING, 12);
    assert CLOSING[..12] == "data: [DONE]" && CLOSING[13..] == "\n";
    OneLine("");
    assert "" + "\n" == "\n";
    DataLineRoundTrip("", " ", DONE, "");
    assert "" + DATA + " " + DONE + "" == "data: [DONE]";
  }

  /** With no more than one rejected line, the outcome is that of the whole stream, whatever the writes were. */
  lemma ChunkingIsInvisible<T>(cfg: Config<T>, s: State<T>, ps: seq<string>)
    requires cfg.isStream && Success(s.statusCode) && s.scanBuf == ""
    requires Failures(cfg, s.feed, Lines(Concat(ps))) <= 1
    ensures Finished(cfg, WrittenAll(cfg, s, ps)).feed == Ideal(cfg, s.feed, Concat(ps))
  {
    hide Lines, Tail, FeedLines, Failures, Finished, Ideal;
    var w := WrittenAll(cfg, s, ps);
    CaughtAfterWrites(cfg, s, ps);
    NoNewline("");
    FeedNothing(cfg, w.feed);
    FinishIsIdeal(cfg, s.feed, Concat(ps), w);
  }

  /** A translator like the gateway's own, none of whose return paths reports an error. */
  ghost predicate NeverFails<T(!new)>(cfg: Config<T>) {
    forall translator, chunk :: !cfg.step(translator, chunk).failed
  }

  lemma {:induction false} NothingRejected<T(!new)>(cfg: Config<T>, feed: Feed<T>, lines: seq<string>)
    requires NeverFails(cfg)
    ensures Failures(cfg, feed, lines) == 0
    decreases |lines|
  {
    hide FeedLine;
    if lines != [] { NothingRejected(cfg, FeedLine(cfg, feed, lines[0]), lines[1..]); }
  }

  /**
   * Over such a translator any two splittings of the same bytes step it alike and write the same
   * downstream, without any condition.
   */
  lemma ChunkingNeverShows<T(!new)>(cfg: Config<T>, s: State<T>, ps: seq<string>, qs: seq<string>)
    requires NeverFails(cfg) && cfg.isStream && Success(s.statusCode) && s.scanBuf == ""
    requires Concat(ps) == Concat(qs)
    ensures Finished(cfg, WrittenAll(cfg, s, ps)).feed == Finished(cfg, WrittenAll(cfg, s, qs)).feed
    ensures Finished(cfg, WrittenAll(cfg, s, ps)).feed == Ideal(cfg, s.feed, Concat(ps))
  {
    hide Lines, Failures, Finished, Ideal, NeverFails;
    NothingRejected(cfg, s.feed, Lines(Concat(ps)));
    ChunkingIsInvisible(cfg, s, ps);
    ChunkingIsInvisible(cfg, s, qs);
  }

  // ---------------------------------------------------------------- when chunking shows

  /** The stream written one byte at a time. */
  function Bytewise(x: string): (ps: seq<string>)
    ensures |ps| == |x|
  {
    if x == "" then [] else Bytewise(x[..|x| - 1]) + [[x[|x| - 1]]]
  }

  /** One byte completes at most one line, so nothing complete stays buffered. */
  lemma {:induction false} BytewiseKeepsUp<T>(cfg: Config<T>, s: State<T>, x: string)
    requires cfg.isStream && Success(s.statusCode) && s.scanBuf == ""
    ensures Concat(Bytewise(x)) == x
    ensures Lines(WrittenAll(cfg, s, Bytewise(x)).scanBuf) == []
    ensures Success(WrittenAll(cfg, s, Bytewise(x)).statusCode)
  {
    hide Lines, Tail, Text, Written;
    NoNewline("");
    if x != "" {
      var front, c := x[..|x| - 1], x[|x| - 1];
      BytewiseKeepsUp(cfg, s, front);
      assert Bytewise(x)[..|Bytewise(x)| - 1] == Bytewise(front);
      ByteKeepsUp(cfg, WrittenAll(cfg, s, Bytewise(front)), c);
    }
  }

  lemma ByteKeepsUp<T>(cfg: Config<T>, s: State<T>, c: char)
    requires cfg.isStream && Success(s.statusCode) && Lines(s.scanBuf) == []
    ensures Lines(Written(cfg, s, [c]).scanBuf) == [] && Success(Written(cfg, s, [c]).statusCode)
  {
    hide Lines, Tail, Text, FeedLine, Fails;
    if !s.feed.finished {
      var all := s.scanBuf + [c];
      OneMoreByte(s.scanBuf, c);
      var d := Drain(cfg, s.feed, Lines(all));
      LinesAreExact(all);
      LinesOfText([], Tail(all));
      DrainOne(cfg, s.feed, Lines(all));
      NoNewline("");
    }
  }

  lemma DrainOne<T>(cfg: Config<T>, feed: Feed<T>, lines: seq<string>)
    requires |lines| <= 1
    ensures Drain(cfg, feed, lines).rest == []
  {
    if lines != [] { assert lines[1..] == []; }
  }

  lemma OneMoreByte(s: string, c: char)
    requires Lines(s) == []
    ensures |Lines(s + [c])| <= 1
  {
    assert (s + [c])[..|s + [c]| - 1] == s;
  }

  /** Written in one piece, a stream with two rejected lines is abandoned at the second. */
  lemma OnePieceFallsShort<T>(cfg: Config<T>, s: State<T>, x: string)
    requires cfg.isStream && Success(s.statusCode) && s.scanBuf == ""
    requires Failures(cfg, s.feed, Lines(x)) >= 2
    ensures Finished(cfg, Written(cfg, s, x)).feed != Ideal(cfg, s.feed, x)
  {
    hide Lines, Tail, Text, FeedLines, Failures, Drain, FeedLine;
    assert s.scanBuf + x == x;
    var w := Written(cfg, s, x);
    var d := Drain(cfg, s.feed, Lines(x));
    DrainKeeps(cfg, s.feed, Lines(x));
    FeedNothing(cfg, d.feed);
    LinesAreExact(x);
    LinesOfText(d.rest, Tail(x));
    NoNewline("");
    DrainStops(cfg, d.feed, d.rest, Tail(x));
    AfterNewline(cfg, w);
    FeedNothing(cfg, w.feed);
  }

  /**
   * The outcome of a stream is independent of how it is split into writes exactly when the translator
   * rejects at most one of its complete lines. A translator that never fails is always independent.
   */
  lemma ChunkingIsInvisibleIff<T>(cfg: Config<T>, s: State<T>, x: string)
    requires cfg.isStream && Success(s.statusCode) && s.scanBuf == ""
    ensures (forall ps, qs :: Concat(ps) == x && Concat(qs) == x ==>
               Finished(cfg, WrittenAll(cfg, s, ps)).feed == Finished(cfg, WrittenAll(cfg, s, qs)).feed)
       <==> Failures(cfg, s.feed, Lines(x)) <= 1
  {
    hide Lines, Tail, FeedLines, Failures, Finished, Ideal, Written;
    if Failures(cfg, s.feed, Lines(x)) <= 1 {
      forall ps, qs | Concat(ps) == x && Concat(qs) == x
        ensures Finished(cfg, WrittenAll(cfg, s, ps)).feed == Finished(cfg, WrittenAll(cfg, s, qs)).feed
      {
        ChunkingIsInvisible(cfg, s, ps);
        ChunkingIsInvisible(cfg, s, qs);
      }
    } else {
      OnePieceFallsShort(cfg, s, x);
      OnePiece(cfg, s, x);
      BytewiseIsIdeal(cfg, s, x);
      assert Finished(cfg, WrittenAll(cfg, s, [x])).feed != Finished(cfg, WrittenAll(cfg, s, Bytewise(x))).feed;
    }
  }

  lemma OnePiece<T>(cfg: Config<T>, s: State<T>, x: string)
    ensures Concat([x]) == x && WrittenAll(cfg, s, [x]) == Written(cfg, s, x)
  {
    hide Written;
    assert [x][..0] == [] && Concat([]) + x == x;
  }

  lemma BytewiseIsIdeal<T>(cfg: Config<T>, s: State<T>, x: string)
    requires cfg.isStream && Success(s.statusCode) && s.scanBuf == ""
    ensures Concat(Bytewise(x)) == x
    ensures Finished(cfg, WrittenAll(cfg, s, Bytewise(x))).feed == Ideal(cfg, s.feed, x)
  {
    hide Lines, Tail, FeedLines, Failures, Finished, Ideal, Caught;
    var w := WrittenAll(cfg, s, Bytewise(x));
    BytewiseKeepsUp(cfg, s, x);
    CaughtAfterWrites(cfg, s, Bytewise(x));
    FeedNothing(cfg, w.feed);
    FinishIsIdeal(cfg, s.feed, x, w);
  }

  // ---------------------------------------------------------------- bodies that are no stream

  /** Outside 2xx the pieces go down as they come, and a plain body is collected whole. */
  lemma {:induction false} PlainBodies<T>(cfg: Config<T>, s: State<T>, ps: seq<string>)
    requires !Success(s.statusCode) || (!cfg.isStream && !s.feed.finished)
    ensures var w := WrittenAll(cfg, s, ps);
      if !Success(s.statusCode) then w == s.(feed := s.feed.(out := s.feed.out + ps)) && Finished(cfg, w) == w
      else w == s.(body := s.body + Concat(ps))
  {
    if ps != [] {
      PlainBodies(cfg, s, ps[..|ps| - 1]);
      assert ps == ps[..|ps| - 1] + [ps[|ps| - 1]];
    }
  }
}
