/**
 * What the two stream adapters send downstream, told from the translator's step function alone: the
 * events of each data line, each comment, nothing else, and the closing step at the end.
 */
module StreamOutput {
  import opened Wrappers
  import opened SseLines
  import M = MessagesAdapter
  import R = ResponsesAdapter

  // ---------------------------------------------------------------- lines

  /** The characters 9 to 13 and the blank. */
  lemma WhiteSpaceIs(c: char)
    ensures IsSpace(c) <==> 9 <= c as int <= 13 || c as int == 32
  {
  }

  /** A comment is a line whose first character that is no white space is a colon. */
  lemma CommentStartsWithColon(line: string)
    ensures IsSSEComment(line) <==> exists i :: 0 <= i < |line| && line[i] == ':' && AllSpace(line[..i])
  {
    hide TrimSpace, IsSpace;
    var pre, post := TrimSpaceSplits(line);
    var core := TrimSpace(line);
    WhiteSpaceIs(':');
    assert forall k :: 0 <= k < |pre| ==> line[k] == pre[k];
    assert forall k :: 0 <= k < |post| ==> line[|pre| + |core| + k] == post[k];
    if IsSSEComment(line) { assert line[..|pre|] == pre && line[|pre|] == core[0]; }
    if i :| 0 <= i < |line| && line[i] == ':' && AllSpace(line[..i]) {
      assert |pre| <= i < |pre| + |core|;
      if |pre| < i && core != "" { assert line[..i][|pre|] == core[0]; }
    }
  }

  /** The chunk of a data line is its payload, [DONE] included. */
  lemma ChunkIsPayload(line: string) returns (pre: string, gap: string, post: string)
    requires ParseSSEDataLine(line) != NotData
    ensures line == pre + "data:" + gap + Chunk(line) + post && AllSpace(pre) && AllSpace(gap) && AllSpace(post)
    ensures Chunk(line) != "" && IsTrimmed(Chunk(line))
  {
    hide ParseSSEDataLine, TrimSpace;
    var payload;
    pre, gap, payload, post := OnlyDataLines(line);
  }

  // ---------------------------------------------------------------- what a sequence of lines calls for

  /** The translator, whether it has declared the stream finished, and the writes made. */
  datatype Played<T> = Played(translator: T, done: bool, out: seq<string>)

  /** One step; a step that fails or has no events writes nothing, and one that fails does not finish. */
  function Play<T>(step: (T, string) -> Step<T>, p: Played<T>, chunk: string): Played<T> {
    var r := step(p.translator, chunk);
    Played(r.next, !r.failed && r.finished, if r.failed || r.events == "" then p.out else p.out + [r.events])
  }

  /** With latch set nothing happens once the translator is done. */
  function PlayAll<T>(step: (T, string) -> Step<T>, latch: bool, t: T, lines: seq<string>): Played<T> {
    if lines == [] then Played(t, false, [])
    else
      var p, line := PlayAll(step, latch, t, lines[..|lines| - 1]), lines[|lines| - 1];
      if latch && p.done then p
      else
        match ParseSSEDataLine(line)
        case Data(payload) => Play(step, p, payload)
        case Done => Play(step, p, "[DONE]")
        case NotData =>
          if exists i :: 0 <= i < |line| && line[i] == ':' && (forall j :: 0 <= j < i ==> IsSpace(line[j]))
          then p.(out := p.out + [TrimSpace(line) + "\n\n"]) else p
  }

  lemma PlayOneMore<T>(step: (T, string) -> Step<T>, latch: bool, t: T, lines: seq<string>, line: string)
    ensures var p, q := PlayAll(step, latch, t, lines), PlayAll(step, latch, t, lines + [line]);
      if latch && p.done then q == p
      else if ParseSSEDataLine(line) != NotData then q == Play(step, p, Chunk(line))
      else if IsSSEComment(line) then q == p.(out := p.out + [CommentFrame(line)])
      else q == p
  {
    hide ParseSSEDataLine, TrimSpace, IsSpace, Play;
    assert (lines + [line])[..|lines + [line]| - 1] == lines;
    CommentStartsWithColon(line);
    assert forall i :: 0 <= i < |line| ==> (AllSpace(line[..i]) <==> forall j :: 0 <= j < i ==> IsSpace(line[j])) by {
      forall i | 0 <= i < |line| ensures AllSpace(line[..i]) <==> forall j :: 0 <= j < i ==> IsSpace(line[j]) {
        assert forall j :: 0 <= j < i ==> line[..i][j] == line[j];
      }
    }
  }

  // ---------------------------------------------------------------- the Anthropic adapter

  lemma {:induction false} MessagesPlay<T>(cfg: M.Config<T>, t: T, out: seq<string>, lines: seq<string>)
    ensures var p := PlayAll(cfg.step, false, t, lines);
      M.HandleLines(cfg, M.Feed(t, out), lines) == M.Feed(p.translator, out + p.out)
  {
    hide ParseSSEDataLine, IsSSEComment, CommentFrame, Chunk;
    if lines != [] {
      var front, line := lines[..|lines| - 1], lines[|lines| - 1];
      assert lines == front + [line];
      MessagesPlay(cfg, t, out, front);
      M.HandleLinesConcat(cfg, M.Feed(t, out), front, [line]);
      assert [line][1..] == [];
      PlayOneMore(cfg.step, false, t, front, line);
    }
  }

  /** The lines handled by Finish: all complete ones, and the last one if it is a data line. */
  function HandledLines(x: string): seq<string> {
    Lines(x) + if ParseSSEDataLine(Tail(x)) != NotData then [Tail(x)] else []
  }

  /** A successful event stream whose header may still have to go out. */
  predicate MessagesStream<T>(cfg: M.Config<T>, s: M.State<T>) {
    200 <= s.statusCode < 300 && if s.headerWritten then s.isSSE else cfg.contentIsSSE || cfg.isStream
  }

  /** Over any writes a successful event stream grows by exactly the writes its lines call for, in order. */
  lemma MessagesWritten<T>(cfg: M.Config<T>, s: M.State<T>, ps: seq<string>)
    requires MessagesStream(cfg, s) && ps != []
    ensures var x, w := s.scanBuf + Concat(ps), M.WrittenAll(cfg, s, ps);
      var p := PlayAll(cfg.step, false, s.feed.translator, Lines(x));
      && w.feed == M.Feed(p.translator, s.feed.out + p.out) && w.scanBuf == Tail(x)
      && w.statusCode == s.statusCode && w.isSSE && w.body == s.body
  {
    hide ParseSSEDataLine, Lines, Tail, M.HandleLines, PlayAll;
    M.WritesAreOneWrite(cfg, s, ps);
    MessagesPlay(cfg, s.feed.translator, s.feed.out, Lines(s.scanBuf + Concat(ps)));
  }

  /** Finish adds the last line, unless it is a comment, and then the events of one closing [DONE], failed or not. */
  lemma MessagesFinished<T>(cfg: M.Config<T>, s: M.State<T>, ps: seq<string>)
    requires MessagesStream(cfg, s) && ps != []
    ensures var f := M.Finished(cfg, M.WrittenAll(cfg, s, ps)).feed;
      var p := PlayAll(cfg.step, false, s.feed.translator, HandledLines(s.scanBuf + Concat(ps)));
      var closing := cfg.step(p.translator, "[DONE]");
      && f.translator == closing.next
      && f.out == s.feed.out + p.out + if closing.events == "" then [] else [closing.events]
  {
    hide ParseSSEDataLine, Lines, Tail, M.WrittenAll, PlayAll, Chunk, Play;
    var x := s.scanBuf + Concat(ps);
    var p := PlayAll(cfg.step, false, s.feed.translator, Lines(x));
    MessagesWritten(cfg, s, ps);
    M.BlankIsNothing();
    PlayOneMore(cfg.step, false, s.feed.translator, Lines(x), Tail(x));
    assert Lines(x) + [] == Lines(x);
    if ParseSSEDataLine(Tail(x)) != NotData { MessagesStepPlays(cfg, s.feed.out, p, Tail(x)); }
  }

  lemma MessagesStepPlays<T>(cfg: M.Config<T>, out: seq<string>, p: Played<T>, line: string)
    requires ParseSSEDataLine(line) != NotData
    ensures var q := Play(cfg.step, p, Chunk(line));
      M.Stepped(cfg, M.Feed(p.translator, out + p.out), Chunk(line)) == M.Feed(q.translator, out + q.out)
  {
  }

  /** A body that is no stream is collected whole and sent once, converted if it can be. */
  lemma {:induction false} MessagesPlain<T>(cfg: M.Config<T>, s: M.State<T>, ps: seq<string>)
    requires 200 <= s.statusCode < 300 && !s.isSSE && (s.headerWritten || !(cfg.contentIsSSE || cfg.isStream))
    ensures var w := M.WrittenAll(cfg, s, ps); var body := s.body + Concat(ps);
      && w == s.(body := body)
      && M.Finished(cfg, w).feed == s.feed.(out := s.feed.out + [if cfg.convert(body).Some? then cfg.convert(body).value else body])
  {
    if ps != [] { MessagesPlain(cfg, s, ps[..|ps| - 1]); }
  }

  // ---------------------------------------------------------------- the Responses adapter

  /** A successful stream at its beginning. */
  predicate ResponsesStream<T>(cfg: R.Config<T>, s: R.State<T>) {
    cfg.isStream && 200 <= s.statusCode < 300 && s.scanBuf == "" && !s.feed.finished
  }

  lemma {:induction false} ResponsesPlay<T>(cfg: R.Config<T>, start: R.Feed<T>, lines: seq<string>)
    requires !start.finished
    ensures var p, f := PlayAll(cfg.step, true, start.translator, lines), R.FeedLines(cfg, start, lines);
      f.translator == p.translator && f.out == start.out + p.out && f.finished == p.done
  {
    hide ParseSSEDataLine, IsSSEComment, CommentFrame, Chunk;
    if lines != [] {
      var front, line := lines[..|lines| - 1], lines[|lines| - 1];
      assert lines == front + [line];
      ResponsesPlay(cfg, start, front);
      R.FeedLinesConcat(cfg, start, front, [line]);
      assert [line][1..] == [];
      PlayOneMore(cfg.step, true, start.translator, front, line);
    }
  }

  /**
   * Over any writes of a stream of which at most one line is rejected, by the time of Finish the adapter has
   * written what all its lines call for, the last one and comments included, up to the line that finishes it;
   * then the events of one closing [DONE], unless it is finished already or the last line was rejected.
   */
  lemma ResponsesWritten<T>(cfg: R.Config<T>, s: R.State<T>, ps: seq<string>)
    requires ResponsesStream(cfg, s)
    requires R.Failures(cfg, s.feed, Lines(Concat(ps))) <= 1
    ensures var x, f, t := Concat(ps), R.Finished(cfg, R.WrittenAll(cfg, s, ps)).feed, s.feed.translator;
      var complete, p := PlayAll(cfg.step, true, t, Lines(x)), PlayAll(cfg.step, true, t, Lines(x) + [Tail(x)]);
      var last := if p.done || Rejects(cfg.step, complete, Tail(x)) then p else Play(cfg.step, p, "[DONE]");
      f.translator == last.translator && f.out == s.feed.out + last.out && f.finished == last.done
  {
    hide ParseSSEDataLine, Lines, Tail, R.FeedLines, R.FeedLine, R.Failures, R.Finished, PlayAll, Chunk;
    var x, start := Concat(ps), s.feed;
    R.ChunkingIsInvisible(cfg, s, ps);
    ResponsesPlay(cfg, start, Lines(x));
    ResponsesPlay(cfg, start, Lines(x) + [Tail(x)]);
    LastIsFed(cfg, start, Lines(x), Tail(x));
  }

  /** The step of a line that is reached and rejected. */
  predicate Rejects<T>(step: (T, string) -> Step<T>, before: Played<T>, line: string) {
    !before.done && ParseSSEDataLine(line) != NotData && step(before.translator, Chunk(line)).failed
  }

  lemma LastIsFed<T>(cfg: R.Config<T>, start: R.Feed<T>, lines: seq<string>, last: string)
    ensures R.FeedLines(cfg, start, lines + [last]) == R.FeedLine(cfg, R.FeedLines(cfg, start, lines), last)
  {
    hide R.FeedLine;
    R.FeedLinesConcat(cfg, start, lines, [last]);
    assert [last][1..] == [];
  }

  /** Over a translator that never fails nothing lags behind: after any writes all complete lines have been handled. */
  lemma ResponsesKeepUp<T(!new)>(cfg: R.Config<T>, s: R.State<T>, ps: seq<string>)
    requires ResponsesStream(cfg, s) && R.NeverFails(cfg)
    ensures var p, w := PlayAll(cfg.step, true, s.feed.translator, Lines(Concat(ps))), R.WrittenAll(cfg, s, ps);
      && w.feed.translator == p.translator && w.feed.out == s.feed.out + p.out && w.feed.finished == p.done
      && w.scanBuf == if p.done then "" else Tail(Concat(ps))
  {
    hide Lines, Tail, R.FeedLines, R.Failures, R.WrittenAll, PlayAll;
    var x, start, w := Concat(ps), s.feed, R.WrittenAll(cfg, s, ps);
    ResponsesPlay(cfg, start, Lines(x));
    R.CaughtAfterWrites(cfg, s, ps);
    R.NothingRejected(cfg, start, Lines(x));
    R.FeedNothing(cfg, w.feed);
    NoNewline("");
    LinesAreExact(w.scanBuf);
    assert Text([]) == "";
  }

  /** A body that is no stream is collected whole and sent once, converted if it can be, unless it is empty. */
  lemma {:induction false} ResponsesPlain<T>(cfg: R.Config<T>, s: R.State<T>, ps: seq<string>)
    requires !cfg.isStream && 200 <= s.statusCode < 300 && !s.feed.finished
    ensures var w, body := R.WrittenAll(cfg, s, ps), s.body + Concat(ps);
      && w == s.(body := body)
      && R.Finished(cfg, w).feed == s.feed.(finished := true, out := s.feed.out + if body == "" then [] else
           [if cfg.convert(body).Some? then cfg.convert(body).value else body])
  {
    if ps != [] { ResponsesPlain(cfg, s, ps[..|ps| - 1]); }
  }

  /** Outside 2xx the pieces of a body go down as they come, in the one case wrapped and in the other bare. */
  lemma {:induction false} ErrorBodies<T>(m: M.Config<T>, s: M.State<T>, r: R.Config<T>, u: R.State<T>, ps: seq<string>)
    requires s.statusCode == u.statusCode && !(200 <= s.statusCode < 300)
    ensures M.Finished(m, M.WrittenAll(m, s, ps)).feed ==
      s.feed.(out := s.feed.out + seq(|ps|, i requires 0 <= i < |ps| => m.envelope(s.statusCode, ps[i])))
    ensures R.Finished(r, R.WrittenAll(r, u, ps)).feed == u.feed.(out := u.feed.out + ps)
  {
    M.ErrorPiecesAreEnveloped(m, s, ps);
    R.PlainBodies(r, u, ps);
    var w := M.WrittenAll(m, s, ps);
    assert w.feed.out == w.feed.out[..|s.feed.out|] + w.feed.out[|s.feed.out|..];
  }
}
