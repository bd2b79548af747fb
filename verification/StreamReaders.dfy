/**
 The three providers' stream readers.  Each reader's state stands for the chunks
 it will still return; Next takes the first of them.
 */
module StreamReaders {
  import opened Framing

  datatype Read = Chunk(bytes: seq<Byte>) | Eof | Failed

  /** bufio.Reader over a response body that ends, or breaks off. */
  class LineReader {
    var rest: seq<Byte>
    const fails: bool

    constructor (body: seq<Byte>, fails: bool)
      ensures rest == body && this.fails == fails
    {
      rest, this.fails := body, fails;
    }

    /** ReadBytes('\n'); `stop` is an error, io.EOF or another. */
    method ReadBytes() returns (line: Line, stop: bool)
      modifies this
      ensures line == FirstLine(old(rest)) && rest == old(rest)[|line|..]
      ensures stop <==> !Ended(line)
      ensures stop ==> rest == []
      ensures old(rest) != [] ==> Lines(old(rest)) == [line] + Lines(rest)
    {
      line := FirstLine(rest);
      stop := !Ended(line);
      if stop {
        UnendedIsLast(rest);
      }
      rest := rest[|line|..];
    }
  }

  // ---------------------------------------------------------------- OpenAI

  /** data: [DONE] */
  const DONE_MARK: seq<Byte> := [100, 97, 116, 97, 58, 32, 91, 68, 79, 78, 69, 93]

  predicate Contains(chunk: seq<Byte>, mark: seq<Byte>) {
    mark <= chunk || (chunk != [] && Contains(chunk[1..], mark))
  }

  predicate SaysDone(chunk: seq<Byte>) {
    Contains(chunk, DONE_MARK)
  }

  function TextBytes(text: string): seq<Byte>
    requires forall i :: 0 <= i < |text| ==> text[i] < 128 as char
  {
    seq(|text|, i requires 0 <= i < |text| => text[i] as int as Byte)
  }

  ghost predicate StandsAt(chunk: seq<Byte>, mark: seq<Byte>, i: nat) {
    i + |mark| <= |chunk| && chunk[i..i + |mark|] == mark
  }

  /** An event says done if the text stands anywhere in it; the closing chunk is the
      text and a blank line. */
  lemma DoneMeaning(chunk: seq<Byte>)
    ensures SaysDone(chunk) <==> exists i :: StandsAt(chunk, TextBytes("data: [DONE]"), i)
    ensures DONE_CHUNK == TextBytes("data: [DONE]\n\n")
  {
    assert DONE_MARK == TextBytes("data: [DONE]");
    ContainsMeaning(chunk, DONE_MARK);
  }

  lemma LaterPart(chunk: seq<Byte>, i: nat, n: nat)
    requires i + 1 + n <= |chunk|
    ensures chunk[1..][i..i + n] == chunk[i + 1..i + 1 + n]
  {
  }

  lemma {:induction false} ContainsMeaning(chunk: seq<Byte>, mark: seq<Byte>)
    ensures Contains(chunk, mark) <==> exists i :: StandsAt(chunk, mark, i)
  {
    if mark <= chunk {
      assert StandsAt(chunk, mark, 0);
    } else if chunk != [] {
      ContainsMeaning(chunk[1..], mark);
      if i: nat :| StandsAt(chunk[1..], mark, i) {
        LaterPart(chunk, i, |mark|);
        assert StandsAt(chunk, mark, i + 1);
      }
      if i: nat :| StandsAt(chunk, mark, i) {
        assert i > 0;
        LaterPart(chunk, i - 1, |mark|);
        assert StandsAt(chunk[1..], mark, i - 1);
      }
    }
  }

  /** The chunks up to and including the first that says done. */
  function UpToDone(chunks: seq<seq<Byte>>): seq<seq<Byte>> {
    if chunks == [] then []
    else if SaysDone(chunks[0]) then [chunks[0]]
    else [chunks[0]] + UpToDone(chunks[1..])
  }

  lemma UpToDoneStep(chunk: seq<Byte>, chunks: seq<seq<Byte>>)
    ensures var all := UpToDone([chunk] + chunks);
            all != [] && all[0] == chunk && all[1..] == if SaysDone(chunk) then [] else UpToDone(chunks)
  {
    assert ([chunk] + chunks)[1..] == chunks;
  }

  /** With the lines `ls` still to read, `event` holds what they are to complete. */
  ghost predicate Collecting(todo: seq<Line>, event: seq<Byte>, ls: seq<Line>) {
    if event == [] then Skip(ls) == todo
    else
      && todo != [] && EventOf(todo) == event + EventOf(ls) && After(todo) == After(ls)
      && (Torn(todo) <==> Torn(ls))
  }

  lemma CollectLine(todo: seq<Line>, event: seq<Byte>, ls: seq<Line>, line: Line, later: seq<Line>)
    requires Collecting(todo, event, ls)
    requires if line == [] then ls == [] && later == [] else ls == [line] + later
    requires !Ended(line) ==> later == []
    ensures event == [] && Blank(line) ==> Collecting(todo, [], later)
    ensures event != [] && Blank(line) ==> EventOf(todo) == event + line && After(todo) == later && !Torn(todo)
    ensures !Blank(line) && Ended(line) ==> Collecting(todo, event + line, later)
    ensures !Blank(line) && !Ended(line) ==> todo != [] && Torn(todo) && EventOf(todo) == event + line && After(todo) == []
  {
    assert line != [] ==> ls[0] == line && ls[1..] == later;
    assert EventOf([]) == [];
  }

  class OpenAIReader {
    const reader: LineReader
    var done: bool

    constructor (body: seq<Byte>, fails: bool)
      ensures Remaining() == UpToDone(Events(Lines(body), fails))
      ensures fresh(reader) && !done
    {
      reader := new LineReader(body, fails);
      done := false;
    }

    ghost function Remaining(): seq<seq<Byte>>
      reads this, reader
    {
      if done then [] else UpToDone(Events(Lines(reader.rest), reader.fails))
    }

    /** One event's lines; `stop` says that the body ended first. */
    method Collect() returns (event: seq<Byte>, stop: bool)
      modifies reader
      ensures var todo := Skip(Lines(old(reader.rest)));
              && event == EventOf(todo) && Lines(reader.rest) == After(todo)
              && (event == [] <==> todo == []) && (stop <==> todo == [] || Torn(todo))
      ensures stop ==> reader.rest == []
    {
      ghost var todo := Skip(Lines(reader.rest));
      event := [];
      while true
        invariant Collecting(todo, event, Lines(reader.rest))
        decreases |reader.rest|
      {
        ghost var ls := Lines(reader.rest);
        var line;
        line, stop := reader.ReadBytes();
        CollectLine(todo, event, ls, line, Lines(reader.rest));
        var isBlank := Blank(line);
        if |line| > 0 && !(isBlank && event == []) {
          event := event + line;
        }
        if isBlank && event != [] {
          return event, false;
        }
        if stop {
          return;
        }
      }
    }

    /** Next.  A torn event is still returned at the end of the body, and lost
        when the read failed. */
    method Next() returns (r: Read)
      modifies this, reader
      ensures old(Remaining()) != [] ==> r == Chunk(old(Remaining())[0]) && Remaining() == old(Remaining())[1..]
      ensures old(Remaining()) == [] ==> done && r == if old(done) || !reader.fails then Eof else Failed
    {
      if done {
        return Eof;
      }
      ghost var todo := Skip(Lines(reader.rest));
      var event, stop := Collect();
      UpToDoneStep(event, Events(After(todo), reader.fails));
      assert Lines([]) == [] && Events([], reader.fails) == [] && UpToDone([]) == [];
      if stop {
        done := true;
        if reader.fails {
          return Failed;
        }
        if event == [] {
          return Eof;
        }
      }
      if SaysDone(event) {
        done := true;
      }
      r := Chunk(event);
    }
  }

  lemma {:induction false} FlattenSplits(chunks: seq<seq<Byte>>, n: nat)
    requires n <= |chunks|
    ensures Flatten(chunks) == Flatten(chunks[..n]) + Flatten(chunks[n..])
  {
    if n == 0 {
      assert chunks[..0] == [] && chunks[0..] == chunks;
    } else {
      FlattenSplits(chunks[1..], n - 1);
      assert chunks[..n][1..] == chunks[1..][..n - 1] && chunks[n..] == chunks[1..][n - 1..];
    }
  }

  lemma {:induction false} UpToDoneCuts(chunks: seq<seq<Byte>>) returns (n: nat)
    ensures n <= |chunks| && UpToDone(chunks) == chunks[..n]
    ensures forall i :: 0 <= i < n - 1 ==> !SaysDone(chunks[i])
    ensures n < |chunks| ==> n > 0 && SaysDone(chunks[n - 1])
  {
    if chunks == [] {
      n := 0;
    } else if SaysDone(chunks[0]) {
      n := 1;
    } else {
      var m := UpToDoneCuts(chunks[1..]);
      n := m + 1;
      assert chunks[..n] == [chunks[0]] + chunks[1..][..m];
    }
  }

  /** All a client is sent, followed by the events after the one that says done,
      is the upstream's bytes but for the blank lines before an event. */
  lemma OpenAIConserves(body: seq<Byte>) returns (n: nat)
    ensures var events := Events(Lines(body), false);
            && n <= |events| && UpToDone(events) == events[..n]
            && (forall i :: 0 <= i < n - 1 ==> !SaysDone(events[i])) && (n < |events| ==> n > 0 && SaysDone(events[n - 1]))
            && Flatten(UpToDone(events)) + Flatten(events[n..]) == Join(Kept(Lines(body), true))
            && Join(Lines(body)) == body
  {
    var events := Events(Lines(body), false);
    n := UpToDoneCuts(events);
    FlattenSplits(events, n);
    EventsConserve(Lines(body));
    JoinLines(body);
  }

  // ---------------------------------------------------------------- Gemini

  const DONE_CHUNK := DONE_MARK + [LF, LF]

  /** What one step upstream gave. */
  datatype Taken = More | Got(chunk: seq<Byte>) | Broke

  /** Translation of an event; Nothing when it carries nothing to translate. */
  type Translator = seq<Byte> -> Translation
  datatype Translation = Nothing | Translated(chunk: seq<Byte>)

  function Chunks(events: seq<seq<Byte>>, translate: Translator): seq<seq<Byte>> {
    if events == [] then []
    else match translate(events[0])
      case Nothing => Chunks(events[1..], translate)
      case Translated(chunk) => [chunk] + Chunks(events[1..], translate)
  }

  lemma ChunksStep(event: seq<Byte>, later: seq<seq<Byte>>, translate: Translator)
    ensures Chunks([event] + later, translate) ==
              (if translate(event).Nothing? then [] else [translate(event).chunk]) + Chunks(later, translate)
  {
    assert ([event] + later)[1..] == later;
  }

  class GeminiReader {
    const reader: LineReader
    const translate: Translator
    var upstreamDone: bool
    var sentDone: bool

    constructor (body: seq<Byte>, fails: bool, translate: Translator)
      ensures Remaining() == Chunks(Events(Lines(body), fails), translate) + if fails then [] else [DONE_CHUNK]
      ensures fresh(reader) && reader.fails == fails
    {
      reader := new LineReader(body, fails);
      this.translate := translate;
      upstreamDone, sentDone := false, false;
    }

    ghost predicate Breaks()
      reads this, reader
    {
      !upstreamDone && reader.fails
    }

    ghost function Remaining(): seq<seq<Byte>>
      reads this, reader
    {
      Coming() + (if Breaks() || sentDone then [] else [DONE_CHUNK])
    }

    /** The chunks still to come from upstream. */
    ghost function Coming(): seq<seq<Byte>>
      reads this, reader
    {
      if upstreamDone then [] else Chunks(Events(Lines(reader.rest), reader.fails), translate)
    }

    method ReadUpstreamEvent() returns (r: Read)
      modifies reader
      ensures var todo := Skip(Lines(old(reader.rest)));
              if todo == [] || (reader.fails && Torn(todo))
              then r == (if reader.fails then Failed else Eof) && reader.rest == []
              else r == Chunk(EventOf(todo)) && EventOf(todo) != [] && Lines(reader.rest) == After(todo)
    {
      ghost var todo := Skip(Lines(reader.rest));
      var event := [];
      while true
        invariant Collecting(todo, event, Lines(reader.rest))
        decreases |reader.rest|
      {
        ghost var ls := Lines(reader.rest);
        var line, stop := reader.ReadBytes();
        CollectLine(todo, event, ls, line, Lines(reader.rest));
        var isBlank := Blank(line);
        if |line| > 0 && !(isBlank && event == []) {
          event := event + line;
        }
        if isBlank && event != [] {
          return Chunk(event);
        }
        if stop {
          if !reader.fails && event != [] {
            return Chunk(event);
          }
          return if reader.fails then Failed else Eof;
        }
      }
    }

    /** One upstream event: nothing to return yet, a chunk, or the read's error. */
    method TakeEvent() returns (r: Taken)
      requires !upstreamDone
      modifies `upstreamDone, reader
      ensures match r
              case Broke => old(Breaks()) && Breaks() && old(Coming()) == Coming() == []
              case More => Coming() == old(Coming()) && Breaks() == old(Breaks())
                           && (upstreamDone || |Lines(reader.rest)| < |Lines(old(reader.rest))|)
              case Got(chunk) => old(Coming()) == [chunk] + Coming() && Breaks() == old(Breaks())
    {
      ghost var ls := Lines(reader.rest);
      SkipShrinks(ls);
      var event := ReadUpstreamEvent();
      if event.Failed? {
        return Broke;
      }
      if event.Eof? {
        upstreamDone := true;
        return More;
      }
      ChunksStep(event.bytes, Events(Lines(reader.rest), reader.fails), translate);
      if |event.bytes| == 0 {
        return More;
      }
      var t := translate(event.bytes);
      r := if t.Nothing? then More else Got(t.chunk);
    }

    /** Next: the translated chunks, one [DONE] if the upstream ended, then EOF
        forever; if it broke off, its error forever. */
    method Next() returns (r: Read)
      modifies this, reader
      ensures old(Remaining()) != [] ==> r == Chunk(old(Remaining())[0]) && Remaining() == old(Remaining())[1..]
      ensures old(Remaining()) == [] ==> Remaining() == [] && r == if old(Breaks()) then Failed else Eof
      ensures Breaks() == old(Breaks())
    {
      while !upstreamDone
        invariant Coming() == old(Coming()) && Breaks() == old(Breaks()) && sentDone == old(sentDone)
        decreases !upstreamDone, |Lines(reader.rest)|
      {
        var taken := TakeEvent();
        if taken.Broke? {
          return Failed;
        }
        if taken.Got? {
          return Chunk(taken.chunk);
        }
      }
      if !sentDone {
        sentDone := true;
        return Chunk(DONE_CHUNK);
      }
      r := Eof;
    }
  }

  // ---------------------------------------------------------------- Ollama

  /** translateLine: not a JSON object; a chunk; or, when the chunk could not be
      printed, only whether this was the final line. */
  datatype LineTranslation = NotJSON | Piece(chunk: seq<Byte>, final: bool) | Unprintable(final: bool)

  type LineTranslator = seq<Byte> -> LineTranslation

  predicate IsSpace(b: Byte) {
    9 <= b <= 13 || b == 32
  }

  function Trim(line: seq<Byte>): seq<Byte> {
    if line == [] then []
    else if IsSpace(line[0]) then Trim(line[1..])
    else if IsSpace(line[|line| - 1]) then Trim(line[..|line| - 1])
    else line
  }

  /** Tab, LF, VT, FF, CR or the space. */
  ghost predicate White(b: Byte) {
    b == 9 || b == 10 || b == 11 || b == 12 || b == 13 || b == 32
  }

  ghost predicate AllWhite(s: seq<Byte>) {
    forall i :: 0 <= i < |s| ==> White(s[i])
  }

  ghost predicate Tight(s: seq<Byte>) {
    s != [] ==> !White(s[0]) && !White(s[|s| - 1])
  }

  /** Trimming takes the ASCII spaces off both ends, and nothing else. */
  lemma {:induction false} TrimMeaning(line: seq<Byte>) returns (before: seq<Byte>, after: seq<Byte>)
    ensures line == before + Trim(line) + after && AllWhite(before) && AllWhite(after) && Tight(Trim(line))
    decreases |line|
  {
    before, after := [], [];
    if line != [] && IsSpace(line[0]) {
      var rest := line[1..];
      before, after := TrimMeaning(rest);
      assert line == [line[0]] + rest;
      Associates([line[0]], before + Trim(rest), after);
      Associates([line[0]], before, Trim(rest));
      before := [line[0]] + before;
    } else if line != [] && IsSpace(line[|line| - 1]) {
      var rest, last := line[..|line| - 1], line[|line| - 1];
      before, after := TrimMeaning(rest);
      assert line == rest + [last];
      Associates(before + Trim(rest), after, [last]);
      after := after + [last];
    }
  }

  predicate IsFinal(t: LineTranslation) {
    !t.NotJSON? && t.final
  }

  function ChunkOf(t: LineTranslation): seq<seq<Byte>> {
    if t.Piece? then [t.chunk] else []
  }

  /** What the lines give, up to the final one; a failing read loses a torn line. */
  function Pieces(ls: seq<Line>, fails: bool, translate: LineTranslator): seq<seq<Byte>> {
    if ls == [] || (fails && !Ended(ls[0])) then []
    else if Trim(ls[0]) == [] then Pieces(ls[1..], fails, translate)
    else
      var t := translate(Trim(ls[0]));
      ChunkOf(t) + if IsFinal(t) then [] else Pieces(ls[1..], fails, translate)
  }

  /** Whether a final line comes before the body breaks off. */
  predicate Finishes(ls: seq<Line>, fails: bool, translate: LineTranslator) {
    if ls == [] || (fails && !Ended(ls[0])) then false
    else if Trim(ls[0]) == [] then Finishes(ls[1..], fails, translate)
    else IsFinal(translate(Trim(ls[0]))) || Finishes(ls[1..], fails, translate)
  }

  lemma PiecesStep(ls: seq<Line>, raw: Line, later: seq<Line>, fails: bool, translate: LineTranslator)
    requires if raw == [] then ls == [] && later == [] else ls == [raw] + later
    requires !Ended(raw) ==> later == []
    ensures fails && !Ended(raw) ==> Pieces(ls, fails, translate) == [] && !Finishes(ls, fails, translate)
    ensures !(fails && !Ended(raw)) && Trim(raw) == [] ==>
              && Pieces(ls, fails, translate) == Pieces(later, fails, translate)
              && Finishes(ls, fails, translate) == Finishes(later, fails, translate)
    ensures !(fails && !Ended(raw)) && Trim(raw) != [] ==>
              var t := translate(Trim(raw));
              && Pieces(ls, fails, translate) == ChunkOf(t) + (if IsFinal(t) then [] else Pieces(later, fails, translate))
              && Finishes(ls, fails, translate) == (IsFinal(t) || Finishes(later, fails, translate))
    ensures Pieces([], fails, translate) == []
  {
    assert raw != [] ==> ls[1..] == later;
  }

  class OllamaReader {
    const reader: LineReader
    const translate: LineTranslator
    var upstreamDone: bool
    var sentDone: bool

    constructor (body: seq<Byte>, fails: bool, translate: LineTranslator)
      ensures Remaining() == Pieces(Lines(body), fails, translate)
                             + if fails && !Finishes(Lines(body), fails, translate) then [] else [DONE_CHUNK]
      ensures fresh(reader) && reader.fails == fails
    {
      reader := new LineReader(body, fails);
      this.translate := translate;
      upstreamDone, sentDone := false, false;
    }

    ghost predicate Breaks()
      reads this, reader
    {
      !upstreamDone && reader.fails && !Finishes(Lines(reader.rest), reader.fails, translate)
    }

    /** The chunks still to come from upstream. */
    ghost function Coming(): seq<seq<Byte>>
      reads this, reader
    {
      if upstreamDone then [] else Pieces(Lines(reader.rest), reader.fails, translate)
    }

    ghost function Remaining(): seq<seq<Byte>>
      reads this, reader
    {
      Coming() + (if Breaks() || sentDone then [] else [DONE_CHUNK])
    }

    /** One line: nothing to return yet, a chunk, or the read's error. */
    method TakeLine() returns (r: Taken)
      requires !upstreamDone
      modifies `upstreamDone, reader
      ensures match r
              case Broke => old(Breaks()) && Breaks() && old(Coming()) == Coming() == []
              case More => Coming() == old(Coming()) && Breaks() == old(Breaks())
                           && (upstreamDone || |reader.rest| < |old(reader.rest)|)
              case Got(chunk) => old(Coming()) == [chunk] + Coming() && Breaks() == old(Breaks())
    {
      ghost var ls := Lines(reader.rest);
      var raw, stop := reader.ReadBytes();
      PiecesStep(ls, raw, Lines(reader.rest), reader.fails, translate);
      var line := Trim(raw);
      if stop {
        if reader.fails {
          return Broke;
        }
        upstreamDone := true;
      }
      if |line| == 0 {
        return More;
      }
      var t := translate(line);
      if IsFinal(t) {
        upstreamDone := true;
      }
      r := if t.Piece? then Got(t.chunk) else More;
    }

    /** Next: the chunks up to the final line, one [DONE], then EOF forever. */
    method Next() returns (r: Read)
      modifies this, reader
      ensures old(Remaining()) != [] ==> r == Chunk(old(Remaining())[0]) && Remaining() == old(Remaining())[1..]
      ensures old(Remaining()) == [] ==> Remaining() == [] && r == if old(Breaks()) then Failed else Eof
      ensures Breaks() == old(Breaks())
    {
      while !upstreamDone
        invariant Coming() == old(Coming()) && Breaks() == old(Breaks()) && sentDone == old(sentDone)
        decreases !upstreamDone, |reader.rest|
      {
        var taken := TakeLine();
        if taken.Broke? {
          return Failed;
        }
        if taken.Got? {
          return Chunk(taken.chunk);
        }
      }
      if !sentDone {
        sentDone := true;
        return Chunk(DONE_CHUNK);
      }
      r := Eof;
    }
  }
}
