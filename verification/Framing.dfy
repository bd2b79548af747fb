/**
 Lines and server-sent events in a byte stream, as pkg/providers/openai/stream.go
 and pkg/providers/gemini/stream.go frame them: a line ends at LF, a line of
 nothing but CR and LF is blank, and an event is a run of lines up to and
 including the first blank one.
 */
module Framing {
  newtype Byte = x: int | 0 <= x < 256

  type Line = seq<Byte>

  const CR: Byte := 13
  const LF: Byte := 10

  /** bufio's ReadBytes('\n'): up to and including the first LF, or all there is. */
  function FirstLine(s: seq<Byte>): (line: Line)
    ensures line <= s && (line == [] ==> s == [])
  {
    if s == [] then [] else if s[0] == LF then [LF] else [s[0]] + FirstLine(s[1..])
  }

  predicate Ended(line: Line) {
    line != [] && line[|line| - 1] == LF
  }

  function Lines(s: seq<Byte>): seq<Line>
    decreases |s|
  {
    if s == [] then [] else [FirstLine(s)] + Lines(s[|FirstLine(s)|..])
  }

  function Join(ls: seq<Line>): seq<Byte> {
    if ls == [] then [] else ls[0] + Join(ls[1..])
  }

  /** Splitting into lines loses nothing. */
  lemma {:induction false} JoinLines(s: seq<Byte>)
    ensures Join(Lines(s)) == s
    decreases |s|
  {
    if s != [] {
      var line := FirstLine(s);
      JoinLines(s[|line|..]);
      assert Lines(s)[1..] == Lines(s[|line|..]);
      assert s == line + s[|line|..];
    }
  }

  /** A line without its LF is the last. */
  lemma {:induction false} UnendedIsLast(s: seq<Byte>)
    requires !Ended(FirstLine(s))
    ensures FirstLine(s) == s
  {
    if s != [] && s[0] != LF {
      if s[1..] != [] {
        var tail := FirstLine(s[1..]);
        assert FirstLine(s)[|FirstLine(s)| - 1] == tail[|tail| - 1];
      }
      UnendedIsLast(s[1..]);
    }
  }

  predicate Blank(line: Line) {
    forall i :: 0 <= i < |line| ==> line[i] == CR || line[i] == LF
  }

  // ---------------------------------------------------------------- events

  /** Blank lines before an event are not part of it. */
  function Skip(ls: seq<Line>): seq<Line> {
    if ls != [] && Blank(ls[0]) then Skip(ls[1..]) else ls
  }

  /** The bytes of the event that starts here, its terminator included. */
  function EventOf(ls: seq<Line>): seq<Byte> {
    if ls == [] then []
    else if Blank(ls[0]) then ls[0]
    else ls[0] + EventOf(ls[1..])
  }

  /** The lines after it. */
  function After(ls: seq<Line>): (rest: seq<Line>)
    ensures |rest| <= |ls| && (ls != [] ==> |rest| < |ls|)
  {
    if ls == [] then []
    else if Blank(ls[0]) then ls[1..]
    else After(ls[1..])
  }

  /** The upstream broke off inside the event's last line. */
  predicate Torn(ls: seq<Line>) {
    if ls == [] || Blank(ls[0]) then false
    else if !Ended(ls[0]) then true
    else Torn(ls[1..])
  }

  lemma {:induction false} SkipShrinks(ls: seq<Line>)
    ensures |Skip(ls)| <= |ls| && (Skip(ls) != [] ==> !Blank(Skip(ls)[0]))
  {
    if ls != [] && Blank(ls[0]) {
      SkipShrinks(ls[1..]);
    }
  }

  /** All events of a stream; one that a failing upstream tears is lost. */
  function Events(ls: seq<Line>, fails: bool): seq<seq<Byte>>
    decreases |ls|
  {
    var todo := Skip(ls);
    SkipShrinks(ls);
    if todo == [] || (fails && Torn(todo)) then []
    else [EventOf(todo)] + Events(After(todo), fails)
  }

  // ---------------------------------------------------------------- what framing keeps

  /** The lines without every blank line that follows another, or opens the stream. */
  function Kept(ls: seq<Line>, afterBlank: bool): seq<Line> {
    if ls == [] then []
    else if Blank(ls[0]) && afterBlank then Kept(ls[1..], true)
    else [ls[0]] + Kept(ls[1..], Blank(ls[0]))
  }

  function Flatten(chunks: seq<seq<Byte>>): seq<Byte> {
    if chunks == [] then [] else chunks[0] + Flatten(chunks[1..])
  }

  lemma {:induction false} KeptSkip(ls: seq<Line>)
    ensures Kept(ls, true) == Kept(Skip(ls), true)
  {
    if ls != [] && Blank(ls[0]) {
      KeptSkip(ls[1..]);
    }
  }

  lemma {:induction false} KeptEvent(ls: seq<Line>)
    ensures Join(Kept(ls, false)) == EventOf(ls) + Join(Kept(After(ls), true))
  {
    if ls != [] {
      var kept := Kept(ls, false);
      assert kept[1..] == Kept(ls[1..], Blank(ls[0]));
      if !Blank(ls[0]) {
        KeptEvent(ls[1..]);
      }
    }
  }

  /** With no read failure the events hold the stream's bytes in order, all but
      the blank lines before an event. */
  lemma {:induction false} EventsConserve(ls: seq<Line>)
    ensures Flatten(Events(ls, false)) == Join(Kept(ls, true))
    decreases |ls|
  {
    var todo := Skip(ls);
    SkipShrinks(ls);
    KeptSkip(ls);
    if todo != [] {
      assert Kept(todo, true) == Kept(todo, false);
      KeptEvent(todo);
      EventsConserve(After(todo));
      assert Events(ls, false)[1..] == Events(After(todo), false);
    }
  }

  // ---------------------------------------------------------------- what an event is on the wire

  /** An event as a provider sends it: the contents of its lines, and how many CRs
      stand before each LF; `padding` is the same of the blank lines before it. */
  datatype Message = Message(padding: seq<nat>, lines: seq<seq<Byte>>, crs: nat)

  function LineEnd(crs: nat): seq<Byte> {
    if crs == 0 then [10] else [13] + LineEnd(crs - 1)
  }

  /** Some byte that is neither CR nor LF, and no LF inside. */
  ghost predicate Worded(content: seq<Byte>) {
    10 !in content && exists i :: 0 <= i < |content| && content[i] != 13
  }

  ghost predicate AllWorded(lines: seq<seq<Byte>>) {
    forall i :: 0 <= i < |lines| ==> Worded(lines[i])
  }

  ghost predicate Sendable(m: Message) {
    m.lines != [] && AllWorded(m.lines)
  }

  /** Lines, each with its end. */
  function Body(lines: seq<seq<Byte>>, crs: nat): seq<Byte> {
    if lines == [] then [] else lines[0] + LineEnd(crs) + Body(lines[1..], crs)
  }

  function Blanks(padding: seq<nat>): seq<Byte> {
    if padding == [] then [] else LineEnd(padding[0]) + Blanks(padding[1..])
  }

  /** The event's bytes: its lines and the blank line that closes it. */
  function Sent(m: Message): seq<Byte> {
    Body(m.lines, m.crs) + LineEnd(m.crs)
  }

  function Wire(messages: seq<Message>): seq<Byte> {
    if messages == [] then [] else Blanks(messages[0].padding) + Sent(messages[0]) + Wire(messages[1..])
  }

  function AllSent(messages: seq<Message>): seq<seq<Byte>> {
    if messages == [] then [] else [Sent(messages[0])] + AllSent(messages[1..])
  }

  /** A line goes up to and including the first LF. */
  lemma {:induction false} FirstLineIs(content: seq<Byte>, rest: seq<Byte>)
    requires 10 !in content
    ensures FirstLine(content + [10] + rest) == content + [10]
  {
    var s := content + [10] + rest;
    if content != [] {
      FirstLineIs(content[1..], rest);
      assert s[0] == content[0] && s[1..] == content[1..] + [10] + rest;
    }
  }

  lemma {:induction false} NoLineIs(content: seq<Byte>)
    requires 10 !in content
    ensures FirstLine(content) == content
  {
    if content != [] {
      NoLineIs(content[1..]);
    }
  }

  lemma {:induction false} LineEndShape(crs: nat) returns (before: seq<Byte>)
    ensures LineEnd(crs) == before + [10] && forall i :: 0 <= i < |before| ==> before[i] == 13
  {
    if crs == 0 {
      before := [];
    } else {
      var shorter := LineEndShape(crs - 1);
      before := [13] + shorter;
    }
  }

  lemma LinesOf(content: seq<Byte>, crs: nat, rest: seq<Byte>)
    requires 10 !in content
    ensures Lines(content + LineEnd(crs) + rest) == [content + LineEnd(crs)] + Lines(rest)
  {
    var s := content + LineEnd(crs) + rest;
    var before := LineEndShape(crs);
    var all := content + before;
    assert 10 !in before;
    assert s == all + [10] + rest && content + LineEnd(crs) == all + [10];
    FirstLineIs(all, rest);
    assert s[|all + [10]|..] == rest;
  }

  lemma LineEndIsBlank(crs: nat)
    ensures Blank(LineEnd(crs)) && Ended(LineEnd(crs))
  {
    var before := LineEndShape(crs);
  }

  lemma WordedIsNotBlank(content: seq<Byte>, end: seq<Byte>)
    requires Worded(content)
    ensures !Blank(content + end)
  {
    var i :| 0 <= i < |content| && content[i] != 13;
    assert (content + end)[i] == content[i] && content[i] in content;
  }

  lemma {:induction false} BlanksSkip(padding: seq<nat>, rest: seq<Byte>)
    ensures Skip(Lines(Blanks(padding) + rest)) == Skip(Lines(rest))
  {
    if padding == [] {
      assert Blanks(padding) + rest == rest;
    } else {
      var more := Blanks(padding[1..]) + rest;
      assert Blanks(padding) + rest == [] + LineEnd(padding[0]) + more;
      assert [] + LineEnd(padding[0]) == LineEnd(padding[0]);
      LineEndIsBlank(padding[0]);
      LinesOf([], padding[0], more);
      BlanksSkip(padding[1..], rest);
    }
  }

  /** Worded lines in front belong to the event that goes on after them. */
  lemma {:induction false} BodyIsEvent(lines: seq<seq<Byte>>, crs: nat, rest: seq<Byte>)
    requires AllWorded(lines)
    ensures var ls := Lines(Body(lines, crs) + rest);
            && EventOf(ls) == Body(lines, crs) + EventOf(Lines(rest)) && After(ls) == After(Lines(rest))
            && (Torn(ls) <==> Torn(Lines(rest))) && (lines != [] ==> ls != [] && !Blank(ls[0]))
  {
    if lines == [] {
      assert Body(lines, crs) + rest == rest;
    } else {
      var line, after := lines[0] + LineEnd(crs), Body(lines[1..], crs);
      assert AllWorded(lines[1..]) && Worded(lines[0]);
      BodyIsEvent(lines[1..], crs, rest);
      LineGoesFirst(lines[0], crs, after + rest);
      Associates(line, after, rest);
      Associates(line, after, EventOf(Lines(rest)));
    }
  }

  lemma Associates(a: seq<Byte>, b: seq<Byte>, c: seq<Byte>)
    ensures (a + b) + c == a + (b + c)
  {
  }

  lemma LineGoesFirst(content: seq<Byte>, crs: nat, more: seq<Byte>)
    requires Worded(content)
    ensures var ls, line := Lines(content + LineEnd(crs) + more), content + LineEnd(crs);
            && EventOf(ls) == line + EventOf(Lines(more)) && After(ls) == After(Lines(more))
            && (Torn(ls) <==> Torn(Lines(more))) && ls != [] && !Blank(ls[0])
  {
    var ls := Lines(content + LineEnd(crs) + more);
    var before := LineEndShape(crs);
    LinesOf(content, crs, more);
    WordedIsNotBlank(content, LineEnd(crs));
    assert ls[1..] == Lines(more) && Ended(ls[0]);
  }

  lemma SentIsEvent(m: Message, rest: seq<Byte>)
    requires Sendable(m)
    ensures var ls := Lines(Sent(m) + rest);
            EventOf(ls) == Sent(m) && After(ls) == Lines(rest) && !Torn(ls) && ls != [] && !Blank(ls[0])
  {
    var closing := LineEnd(m.crs) + rest;
    assert Sent(m) + rest == Body(m.lines, m.crs) + closing;
    assert closing == [] + LineEnd(m.crs) + rest && [] + LineEnd(m.crs) == LineEnd(m.crs);
    LinesOf([], m.crs, rest);
    LineEndIsBlank(m.crs);
    BodyIsEvent(m.lines, m.crs, closing);
    assert Lines(closing)[1..] == Lines(rest);
  }

  /** The events of a stream of messages and something more are the messages'
      bytes and its events: whatever the line ends, however many blank lines lie
      between, and whether or not the upstream fails in the end. */
  lemma {:induction false} EventsAreMessages(messages: seq<Message>, rest: seq<Byte>, fails: bool)
    requires forall i :: 0 <= i < |messages| ==> Sendable(messages[i])
    ensures Events(Lines(Wire(messages) + rest), fails) == AllSent(messages) + Events(Lines(rest), fails)
  {
    if messages == [] {
      assert Wire(messages) + rest == rest;
    } else {
      var m, more := messages[0], Wire(messages[1..]);
      EventsAreMessages(messages[1..], rest, fails);
      Associates(Blanks(m.padding) + Sent(m), more, rest);
      Associates(Blanks(m.padding), Sent(m), more + rest);
      FirstEvent(m, more + rest, fails);
      assert [Sent(m)] + (AllSent(messages[1..]) + Events(Lines(rest), fails)) == AllSent(messages) + Events(Lines(rest), fails);
    }
  }

  lemma FirstEvent(m: Message, rest: seq<Byte>, fails: bool)
    requires Sendable(m)
    ensures Events(Lines(Blanks(m.padding) + (Sent(m) + rest)), fails) == [Sent(m)] + Events(Lines(rest), fails)
  {
    BlanksSkip(m.padding, Sent(m) + rest);
    SentIsEvent(m, rest);
  }

  /** How a stream ends: lines that no blank line closes are an event all the same;
      a piece of a line is one too if the upstream ended, and lost with the lines
      before it if it failed. */
  lemma LastEvent(padding: seq<nat>, lines: seq<seq<Byte>>, crs: nat, piece: seq<Byte>, fails: bool)
    requires AllWorded(lines) && (piece == [] || Worded(piece))
    ensures Events(Lines(Blanks(padding) + (Body(lines, crs) + piece)), fails) ==
              if (lines == [] && piece == []) || (fails && piece != []) then [] else [Body(lines, crs) + piece]
  {
    BlanksSkip(padding, Body(lines, crs) + piece);
    BodyIsEvent(lines, crs, piece);
    NoLineIs(piece);
    assert piece != [] ==> Lines(piece) == [piece] by {
      assert piece[|piece|..] == [];
    }
    if piece != [] {
      WordedIsNotBlank(piece, []);
      assert piece + [] == piece && piece[|piece| - 1] in piece;
      assert [piece][1..] == [];
    }
    assert Body(lines, crs) + piece == [] <==> lines == [] && piece == [];
  }
}
