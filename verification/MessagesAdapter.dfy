/** The Anthropic response adapter (internal/handler/chat_messages_adapter.go). */
module MessagesAdapter {
  import opened Wrappers
  import opened SseLines

  /**
   * What the adapter is built over: the SSE translator (an arbitrary machine on states T),
   * the conversion of a whole body (None when it fails), the error envelope, the stream flag of
   * the request and whether the upstream's Content-Type says text/event-stream.
   */
  datatype Config<!T> = Config(
    step: (T, string) -> Step<T>,
    convert: string -> Option<string>,
    envelope: (int, string) -> string,
    isStream: bool,
    contentIsSSE: bool)

  /** The translator and everything written downstream so far. */
  datatype Feed<T> = Feed(translator: T, out: seq<string>)

  datatype State<T> = State(
    feed: Feed<T>,
    scanBuf: string,
    body: string,
    statusCode: int,
    headerWritten: bool,
    isSSE: bool)

  predicate Success(status: int) { 200 <= status < 300 }

  predicate EventStream<T>(cfg: Config<T>) { cfg.contentIsSSE || cfg.isStream }

  function Fresh<T>(translator: T): State<T> { State(Feed(translator, []), "", "", 200, false, false) }

  // ---------------------------------------------------------------- specification

  function WithHeader<T>(cfg: Config<T>, s: State<T>, status: int): State<T> {
    if !Success(status) then s.(statusCode := status, headerWritten := true)
    else if EventStream(cfg) then s.(statusCode := status, headerWritten := true, isSSE := true)
    else s.(statusCode := status)
  }

  function Stepped<T>(cfg: Config<T>, feed: Feed<T>, chunk: string): Feed<T> {
    var r := cfg.step(feed.translator, chunk);
    Feed(r.next, if !r.failed && r.events != "" then feed.out + [r.events] else feed.out)
  }

  /** The closing [DONE] of Finish writes its events even if the translator reports an error. */
  function Closed<T>(cfg: Config<T>, feed: Feed<T>): Feed<T> {
    var r := cfg.step(feed.translator, DONE);
    Feed(r.next, if r.events != "" then feed.out + [r.events] else feed.out)
  }

  function HandleLine<T>(cfg: Config<T>, feed: Feed<T>, line: string): Feed<T> {
    if ParseSSEDataLine(line) != NotData then Stepped(cfg, feed, Chunk(line))
    else if IsSSEComment(line) then feed.(out := feed.out + [CommentFrame(line)])
    else feed
  }

  function HandleLines<T>(cfg: Config<T>, feed: Feed<T>, lines: seq<string>): Feed<T>
    decreases |lines|
  {
    if lines == [] then feed else HandleLines(cfg, HandleLine(cfg, feed, lines[0]), lines[1..])
  }

  /** One Write: every line that p completes is handled, the rest is kept. */
  function Written<T>(cfg: Config<T>, s: State<T>, p: string): State<T> {
    var h := if s.headerWritten then s else WithHeader(cfg, s, s.statusCode);
    if !Success(h.statusCode) then
      h.(feed := h.feed.(out := h.feed.out + [cfg.envelope(h.statusCode, p)]))
    else if h.isSSE then
      h.(feed := HandleLines(cfg, h.feed, Lines(h.scanBuf + p)), scanBuf := Tail(h.scanBuf + p))
    else
      h.(body := h.body + p)
  }

  function WrittenAll<T>(cfg: Config<T>, s: State<T>, ps: seq<string>): State<T> {
    if ps == [] then s else Written(cfg, WrittenAll(cfg, s, ps[..|ps| - 1]), ps[|ps| - 1])
  }

  /** The rest is handled as a line, unless it is a comment. */
  function LastLine<T>(cfg: Config<T>, feed: Feed<T>, scanBuf: string): Feed<T> {
    if scanBuf != "" && ParseSSEDataLine(scanBuf) != NotData then Stepped(cfg, feed, Chunk(scanBuf)) else feed
  }

  function Finished<T>(cfg: Config<T>, s: State<T>): State<T> {
    if !Success(s.statusCode) then s
    else if s.isSSE then s.(feed := Closed(cfg, LastLine(cfg, s.feed, s.scanBuf)))
    else
      var body := match cfg.convert(s.body) { case Some(converted) => converted case None => s.body };
      s.(headerWritten := true, feed := s.feed.(out := s.feed.out + [body]))
  }

  // ---------------------------------------------------------------- the adapter

  class AnthropicResponseAdapter<T> {
    const cfg: Config<T>
    var sseTranslator: T
    var scanBuf: string
    var buf: string
    var statusCode: int
    var headerWritten: bool
    var isSSE: bool
    /** Every Write made on the underlying ResponseWriter. */
    var out: seq<string>

    ghost function View(): State<T>
      reads this
    {
      State(Feed(sseTranslator, out), scanBuf, buf, statusCode, headerWritten, isSSE)
    }

    constructor (cfg: Config<T>, translator: T)
      ensures this.cfg == cfg && View() == Fresh(translator)
    {
      this.cfg := cfg;
      sseTranslator, scanBuf, buf := translator, "", "";
      statusCode, headerWritten, isSSE, out := 200, false, false, [];
    }

    method WriteHeader(status: int)
      modifies this
      ensures View() == WithHeader(cfg, old(View()), status)
      ensures View() == old(View()).(statusCode := status, headerWritten := headerWritten, isSSE := isSSE)
      ensures isSSE == (old(isSSE) || (200 <= status < 300 && (cfg.contentIsSSE || cfg.isStream)))
      ensures headerWritten == (old(headerWritten) || status < 200 || status >= 300 || cfg.contentIsSSE || cfg.isStream)
    {
      statusCode := status;
      if status < 200 || status >= 300 {
        headerWritten := true;
        return;
      }
      if cfg.contentIsSSE || cfg.isStream {
        isSSE := true;
        headerWritten := true;
      }
    }

    method TranslateLine(line: string)
      requires ParseSSEDataLine(line) != NotData
      modifies this`sseTranslator, this`out
      ensures View().feed == Stepped(cfg, old(View()).feed, Chunk(line))
    {
      var chunk := match ParseSSEDataLine(line) { case Data(payload) => payload case Done => DONE };
      var r := cfg.step(sseTranslator, chunk);
      sseTranslator := r.next;
      if !r.failed && |r.events| > 0 {
        out := out + [r.events];
      }
    }

    method Write(p: string) returns (n: nat)
      modifies this
      ensures View() == Written(cfg, old(View()), p)
      ensures n == if Success(statusCode) then |p| else |cfg.envelope(statusCode, p)|
    {
      hide ParseSSEDataLine, IsSSEComment, CommentFrame, Lines, Tail, Stepped;
      if !headerWritten {
        WriteHeader(statusCode);
      }
      if statusCode < 200 || statusCode >= 300 {
        out := out + [cfg.envelope(statusCode, p)];
        return |cfg.envelope(statusCode, p)|;
      }
      if !isSSE {
        buf := buf + p;
        return |p|;
      }
      scanBuf := scanBuf + p;
      Drain();
      n := |p|;
    }

    /** The line loop of Write. */
    method Drain()
      modifies this`scanBuf, this`sseTranslator, this`out
      ensures View().feed == HandleLines(cfg, old(View()).feed, Lines(old(scanBuf)))
      ensures scanBuf == Tail(old(scanBuf))
    {
      hide ParseSSEDataLine, IsSSEComment, Lines, Tail, Stepped, Chunk;
      while true
        invariant HandleLines(cfg, old(View()).feed, Lines(old(scanBuf))) == HandleLines(cfg, View().feed, Lines(scanBuf))
        invariant Tail(scanBuf) == Tail(old(scanBuf))
        decreases |scanBuf|
      {
        var idx := IndexNewline(scanBuf);
        if idx < 0 {
          NoNewline(scanBuf);
          break;
        }
        var line := scanBuf[..idx];
        FirstLine(scanBuf, idx);
        assert Lines(scanBuf)[1..] == Lines(scanBuf[idx + 1..]);
        scanBuf := scanBuf[idx + 1..];
        if ParseSSEDataLine(line) != NotData {
          TranslateLine(line);
          continue;
        }
        if IsSSEComment(line) {
          out := out + [TrimSpace(line) + "\n\n"];
        }
      }
    }

    method Finish()
      modifies this
      ensures View() == Finished(cfg, old(View()))
    {
      hide ParseSSEDataLine, Chunk;
      if statusCode < 200 || statusCode >= 300 {
        return;
      }
      if isSSE {
        if |scanBuf| > 0 && ParseSSEDataLine(scanBuf) != NotData {
          TranslateLine(scanBuf);
        }
        var r := cfg.step(sseTranslator, "[DONE]");
        sseTranslator := r.next;
        if |r.events| > 0 {
          out := out + [r.events];
        }
        return;
      }
      headerWritten := true;
      match cfg.convert(buf)
      case None => out := out + [buf];
      case Some(claudeResp) => out := out + [claudeResp];
    }
  }

  // ---------------------------------------------------------------- chunking

  lemma {:induction false} HandleLinesConcat<T>(cfg: Config<T>, feed: Feed<T>, a: seq<string>, b: seq<string>)
    ensures HandleLines(cfg, feed, a + b) == HandleLines(cfg, HandleLines(cfg, feed, a), b)
    decreases |a|
  {
    hide HandleLine;
    if a == [] {
      assert a + b == b;
    } else {
      assert (a + b)[1..] == a[1..] + b;
      HandleLinesConcat(cfg, HandleLine(cfg, feed, a[0]), a[1..], b);
    }
  }

  /** Two writes are one write of both. */
  lemma WritesJoin<T>(cfg: Config<T>, s: State<T>, a: string, b: string)
    requires Success(s.statusCode)
    ensures Written(cfg, Written(cfg, s, a), b) == Written(cfg, s, a + b)
  {
    hide HandleLines, Lines, Tail;
    var buffered := s.scanBuf + a;
    LinesConcat(buffered, b);
    assert buffered + b == s.scanBuf + (a + b);
    HandleLinesConcat(cfg, s.feed, Lines(buffered), Lines(Tail(buffered) + b));
    assert s.body + a + b == s.body + (a + b);
  }

  lemma {:induction false} WritesAreOneWrite<T>(cfg: Config<T>, s: State<T>, ps: seq<string>)
    requires Success(s.statusCode) && ps != []
    ensures WrittenAll(cfg, s, ps) == Written(cfg, s, Concat(ps))
  {
    hide Written;
    var front, last := ps[..|ps| - 1], ps[|ps| - 1];
    if front == [] {
      assert Concat(ps) == Concat(front) + last == last;
    } else {
      WritesAreOneWrite(cfg, s, front);
      WritesJoin(cfg, s, Concat(front), last);
    }
  }

  /**
   * However a response is split into writes, the adapter ends in the same state: the same translator,
   * the same bytes downstream in the same writes. As the translator is arbitrary, it may be one that
   * records its chunks: the steps are the same too.
   */
  lemma ChunkingIsInvisible<T>(cfg: Config<T>, s: State<T>, ps: seq<string>, qs: seq<string>)
    requires Success(s.statusCode) && Concat(ps) == Concat(qs) && ps != [] && qs != []
    ensures WrittenAll(cfg, s, ps) == WrittenAll(cfg, s, qs)
    ensures Finished(cfg, WrittenAll(cfg, s, ps)) == Finished(cfg, WrittenAll(cfg, s, qs))
  {
    WritesAreOneWrite(cfg, s, ps);
    WritesAreOneWrite(cfg, s, qs);
  }

  /** An event stream of no writes at all is the exception: it is finished as a plain body. */
  lemma NoWriteIsNoStream<T>(cfg: Config<T>, translator: T)
    ensures Finished(cfg, Fresh(translator)).feed.translator == translator
    ensures EventStream(cfg) ==>
      Finished(cfg, Written(cfg, Fresh(translator), "")).feed == Closed(cfg, Feed(translator, []))
  {
    assert Fresh(translator).scanBuf + "" == "";
  }

  /** Outside 2xx every piece of the body gets an envelope of its own, so there chunking shows. */
  lemma {:induction false} ErrorPiecesAreEnveloped<T>(cfg: Config<T>, s: State<T>, ps: seq<string>)
    requires !Success(s.statusCode)
    ensures var w := WrittenAll(cfg, s, ps);
      && w.statusCode == s.statusCode && w.feed.translator == s.feed.translator
      && |w.feed.out| == |s.feed.out| + |ps| && w.feed.out[..|s.feed.out|] == s.feed.out
      && (forall i :: 0 <= i < |ps| ==> w.feed.out[|s.feed.out| + i] == cfg.envelope(s.statusCode, ps[i]))
      && Finished(cfg, w) == w
  {
    if ps != [] { ErrorPiecesAreEnveloped(cfg, s, ps[..|ps| - 1]); }
  }

  /** A stream is finished alike with and without its last newline, unless that line is a comment. */
  lemma LastNewlineIsOptional<T>(cfg: Config<T>, s: State<T>, x: string)
    requires Success(s.statusCode) && s.headerWritten && s.isSSE
    ensures var bare, full := Finished(cfg, Written(cfg, s, x)), Finished(cfg, Written(cfg, s, x + "\n"));
      && bare.feed.translator == full.feed.translator
      && (bare.feed == full.feed <==> !IsSSEComment(Tail(s.scanBuf + x)))
  {
    hide ParseSSEDataLine, IsSSEComment, Lines, Tail, Stepped, Chunk, CommentFrame;
    var all := s.scanBuf + x;
    NewlineCompletes(all);
    assert s.scanBuf + (x + "\n") == all + "\n";
    HandleLinesConcat(cfg, s.feed, Lines(all), [Tail(all)]);
    CommentIsNoData(Tail(all));
    BlankIsNothing();
    var before := HandleLines(cfg, s.feed, Lines(all));
    assert [Tail(all)][1..] == [];
    assert HandleLines(cfg, s.feed, Lines(all + "\n")) == HandleLine(cfg, before, Tail(all));
    assert LastLine(cfg, before, "") == before;
  }

  lemma CommentIsNoData(line: string)
    ensures IsSSEComment(line) ==> ParseSSEDataLine(line) == NotData
  {
    CarriageReturnIsSpace(line);
    var trimmed := TrimSpace(line);
    if HasPrefix(trimmed, DATA) { assert trimmed[0] == trimmed[..5][0]; }
  }

  lemma BlankIsNothing()
    ensures ParseSSEDataLine("") == NotData && !IsSSEComment("")
  {
  }
}
