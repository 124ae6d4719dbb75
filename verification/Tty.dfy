/**
 The line splitter of 31_tty: written characters are collected into lines, each printed with
 printk's %s. A line is what is before a CR, an LF or a CR LF; a longer one is cut after 80
 characters, with a backslash added.
 */
module Tty {

  type Text = seq<bv8>

  const LINE_LONG := 80
  const MAX_ROOM := 4096

  const NUL: bv8 := 0
  const LF: bv8 := 10
  const CR: bv8 := 13
  const BACKSLASH: bv8 := 92

  /** The line being collected, and the contents of the buffer at each flush so far. */
  datatype State = State(line: Text, lines: seq<Text>)

  function Flushed(s: State): State {
    if s.line == [] then s else State([], s.lines + [s.line])
  }

  /** A full line is printed with a backslash before the next character is looked at. */
  function Cut(s: State): State {
    if |s.line| >= LINE_LONG then Flushed(s.(line := s.line + [BACKSLASH])) else s
  }

  /** One character, without looking at the next. */
  function Put(s: State, c: bv8): State {
    var t := Cut(s);
    if c == CR || c == LF then Flushed(t) else t.(line := t.line + [c])
  }

  function Front<T>(s: seq<T>): seq<T>
    requires s != []
  {
    s[..|s| - 1]
  }

  function Last<T>(s: seq<T>): T
    requires s != []
  {
    s[|s| - 1]
  }

  function Feed(s: State, input: Text): State {
    if input == [] then s else Put(Feed(s, Front(input)), Last(input))
  }

  // ----- Cutting the input

  /** Two writes do what one write of both does. */
  lemma {:induction false} CutAnywhere(s: State, a: Text, b: Text)
    ensures Feed(s, a + b) == Feed(Feed(s, a), b)
    decreases |b|
  {
    if b == [] {
      assert a + b == a;
    } else {
      assert Front(a + b) == a + Front(b);
      CutAnywhere(s, a, Front(b));
    }
  }

  /** An LF behind a CR adds nothing, so the driver may skip it. */
  lemma NewlineAfterReturn(s: State)
    ensures Put(Put(s, CR), LF) == Put(s, CR)
  {
  }

  lemma FeedMore(s: State, input: Text, i: nat)
    requires i < |input|
    ensures Feed(s, input[..i + 1]) == Put(Feed(s, input[..i]), input[i])
  {
    assert Front(input[..i + 1]) == input[..i];
  }

  lemma FeedTurn(s: State, input: Text, i: nat)
    requires i < |input|
    ensures Feed(s, input[..i + 1]) == Put(Feed(s, input[..i]), input[i])
    ensures i + 1 < |input| && input[i] == CR && input[i + 1] == LF ==>
      Feed(s, input[..i + 2]) == Put(Feed(s, input[..i]), input[i])
  {
    FeedMore(s, input, i);
    if i + 1 < |input| && input[i] == CR && input[i + 1] == LF {
      FeedMore(s, input, i + 1);
      NewlineAfterReturn(Feed(s, input[..i]));
    }
  }

  // ----- Where the lines end

  predicate IsEnd(c: bv8) {
    c == 13 || c == 10
  }

  /** What was written since the last line end. */
  function Open(input: Text): Text {
    if input == [] || IsEnd(Last(input)) then [] else Open(Front(input)) + [Last(input)]
  }

  /** What was written before each line end, since the one before it. */
  function Pieces(input: Text): seq<Text> {
    if input == [] then []
    else if IsEnd(Last(input)) then Pieces(Front(input)) + [Open(Front(input))]
    else Pieces(Front(input))
  }

  /** How a piece is printed once its line end is there: 80 characters and a backslash at a time. */
  function Printed(piece: Text): seq<Text>
    decreases |piece|
  {
    if piece == [] then []
    else if |piece| < 80 then [piece]
    else [piece[..80] + [92]] + Printed(piece[80..])
  }

  function AllPrinted(pieces: seq<Text>): seq<Text> {
    if pieces == [] then [] else AllPrinted(Front(pieces)) + Printed(Last(pieces))
  }

  /** What is printed of a piece, and what is still collected, as long as it may go on. */
  function CutOff(piece: Text): seq<Text>
    decreases |piece|
  {
    if |piece| <= 80 then [] else [piece[..80] + [92]] + CutOff(piece[80..])
  }

  function Rest(piece: Text): Text
    decreases |piece|
  {
    if |piece| <= 80 then piece else Rest(piece[80..])
  }

  /** The pieces are the input between its line ends: each is free of them, and none is missing. */
  lemma {:induction false} PiecesAreInput(input: Text)
    ensures forall c :: c in Open(input) ==> !IsEnd(c)
    ensures forall i, c :: 0 <= i < |Pieces(input)| && c in Pieces(input)[i] ==> !IsEnd(c)
    ensures Ended(Pieces(input)) + |Open(input)| == |input|
  {
    if input != [] {
      PiecesAreInput(Front(input));
      var more := Pieces(Front(input)) + [Open(Front(input))];
      assert Front(more) == Pieces(Front(input));
    }
  }

  /** The characters of the pieces, and the line end of each. */
  function Ended(pieces: seq<Text>): nat {
    if pieces == [] then 0 else Ended(Front(pieces)) + |Last(pieces)| + 1
  }

  lemma {:induction false} OneMoreCharacter(piece: Text, c: bv8)
    ensures |Rest(piece)| < 80 ==> Rest(piece + [c]) == Rest(piece) + [c] && CutOff(piece + [c]) == CutOff(piece)
    ensures |Rest(piece)| >= 80 ==> Rest(piece + [c]) == [c]
    ensures |Rest(piece)| >= 80 ==> CutOff(piece + [c]) == CutOff(piece) + [Rest(piece) + [92]]
    ensures |Rest(piece)| <= 80
    decreases |piece|
  {
    if |piece| > 80 {
      OneMoreCharacter(piece[80..], c);
      assert (piece + [c])[80..] == piece[80..] + [c] && (piece + [c])[..80] == piece[..80];
    } else if |piece| == 80 {
      assert (piece + [c])[80..] == [c] && (piece + [c])[..80] == piece;
    }
  }

  lemma {:induction false} LineEnds(piece: Text)
    ensures Rest(piece) == [] ==> Printed(piece) == CutOff(piece)
    ensures 0 < |Rest(piece)| < 80 ==> Printed(piece) == CutOff(piece) + [Rest(piece)]
    ensures |Rest(piece)| == 80 ==> Printed(piece) == CutOff(piece) + [Rest(piece) + [92]]
    ensures |Rest(piece)| <= 80
    decreases |piece|
  {
    if |piece| > 80 {
      LineEnds(piece[80..]);
    } else if |piece| == 80 {
      assert piece[..80] == piece && piece[80..] == [];
    }
  }

  /**
   The lines of any input are its pieces between CR and LF, each printed 80 characters at a time;
   an empty piece prints nothing, so CR LF ends one line and not two.
   */
  lemma {:induction false} LinesOfInput(input: Text)
    ensures Feed(State([], []), input) ==
      State(Rest(Open(input)), AllPrinted(Pieces(input)) + CutOff(Open(input)))
  {
    if input != [] {
      var before, c := Front(input), Last(input);
      LinesOfInput(before);
      if IsEnd(c) {
        LineEnds(Open(before));
        AllPrintedMore(Pieces(before), Open(before));
      } else {
        OneMoreCharacter(Open(before), c);
      }
    }
  }

  lemma AllPrintedMore(pieces: seq<Text>, piece: Text)
    ensures AllPrinted(pieces + [piece]) == AllPrinted(pieces) + Printed(piece)
  {
    assert Front(pieces + [piece]) == pieces;
  }

  lemma {:induction false} RestLength(piece: Text) returns (times: nat)
    requires piece != []
    ensures 1 <= |Rest(piece)| <= 80 && |piece| == 80 * times + |Rest(piece)|
    decreases |piece|
  {
    times := 0;
    if |piece| > 80 {
      times := RestLength(piece[80..]);
      times := times + 1;
    }
  }

  /**
   The backslash marks a line that goes on, but also the end of one whose length is a multiple of
   80: the line is cut before the driver looks at its line end.
   */
  lemma FullLineIsMarked(piece: Text)
    requires piece != []
    ensures Printed(piece) != []
    ensures |Last(Printed(piece))| == 81 <==> |piece| % 80 == 0
    ensures |piece| % 80 == 0 ==> Last(Last(Printed(piece))) == 92
  {
    var times := RestLength(piece);
    LineEnds(piece);
    assert |piece| % 80 == 0 <==> |Rest(piece)| == 80;
  }

  // ----- What is printed

  /** The input without its line ends. */
  function Stripped(input: Text): Text {
    if input == [] then []
    else Stripped(Front(input)) + if Last(input) == CR || Last(input) == LF then [] else [Last(input)]
  }

  /** A line without the backslash that cutting added. */
  function Kept(line: Text): Text {
    if |line| == LINE_LONG + 1 then line[..LINE_LONG] else line
  }

  function Joined(lines: seq<Text>): Text {
    if lines == [] then [] else Joined(Front(lines)) + Kept(Last(lines))
  }

  /** What %s prints of a buffer: everything before its first NUL. */
  function Shown(line: Text): Text {
    if line == [] || line[0] == NUL then [] else [line[0]] + Shown(line[1..])
  }

  function AllShown(lines: seq<Text>): (r: seq<Text>)
    ensures |r| == |lines|
  {
    if lines == [] then [] else AllShown(Front(lines)) + [Shown(Last(lines))]
  }

  /** Flushed lines have up to 80 characters, or 81 with a backslash for the last. */
  ghost predicate GoodLine(line: Text) {
    |line| <= LINE_LONG || (|line| == LINE_LONG + 1 && line[LINE_LONG] == BACKSLASH)
  }

  ghost predicate Good(s: State) {
    |s.line| <= LINE_LONG && forall i :: 0 <= i < |s.lines| ==> GoodLine(s.lines[i])
  }

  lemma JoinedMore(lines: seq<Text>, line: Text)
    ensures Joined(lines + [line]) == Joined(lines) + Kept(line)
  {
    assert Front(lines + [line]) == lines;
  }

  /** Everything collected so far, printed or not. */
  function Content(s: State): Text {
    Joined(s.lines) + s.line
  }

  lemma FlushKeeps(s: State)
    requires Good(s)
    ensures Good(Flushed(s)) && Content(Flushed(s)) == Content(s)
  {
    JoinedMore(s.lines, s.line);
  }

  lemma CutKeeps(s: State)
    requires Good(s)
    ensures Good(Cut(s)) && |Cut(s).line| < LINE_LONG && Content(Cut(s)) == Content(s)
  {
    JoinedMore(s.lines, s.line + [BACKSLASH]);
  }

  lemma PutKeeps(s: State, c: bv8)
    requires Good(s)
    ensures Good(Put(s, c))
    ensures Content(Put(s, c)) == if c == CR || c == LF then Content(s) else Content(s) + [c]
  {
    CutKeeps(s);
    if c == CR || c == LF {
      FlushKeeps(Cut(s));
    } else {
      var t := Cut(s);
      assert Joined(t.lines) + (t.line + [c]) == Joined(t.lines) + t.line + [c];
    }
  }

  /**
   The lines, with the backslashes of the cut ones taken off, and the line being collected are
   the input without its line ends; and between characters at most 80 are being collected.
   */
  lemma {:induction false} ContentKept(s: State, input: Text)
    requires Good(s)
    ensures Good(Feed(s, input)) && Content(Feed(s, input)) == Content(s) + Stripped(input)
  {
    if input != [] {
      ContentKept(s, Front(input));
      PutKeeps(Feed(s, Front(input)), Last(input));
      assert Content(s) + Stripped(Front(input)) + [Last(input)] ==
             Content(s) + (Stripped(Front(input)) + [Last(input)]);
    }
  }

  // ----- What %s hides

  /** Nothing behind a NUL is shown. */
  lemma {:induction false} ShownUpTo(buffer: Text, n: nat)
    requires n < |buffer| && buffer[n] == NUL
    ensures Shown(buffer) == Shown(buffer[..n])
  {
    if n > 0 && buffer[0] != NUL {
      ShownUpTo(buffer[1..], n - 1);
      assert buffer[..n][1..] == buffer[1..][..n - 1];
    }
  }

  lemma {:induction false} ShownExact(line: Text)
    ensures |Shown(line)| <= |line|
    ensures NUL in line ==> |Shown(line)| < |line|
    ensures NUL !in line ==> Shown(line) == line
  {
    if line != [] {
      ShownExact(line[1..]);
      assert line == [line[0]] + line[1..];
    }
  }

  /** Some line has a NUL. */
  predicate HasNul(lines: seq<Text>) {
    lines != [] && (HasNul(Front(lines)) || NUL in Last(lines))
  }

  lemma NulKept(line: Text)
    requires GoodLine(line)
    ensures NUL in Kept(line) <==> NUL in line
  {
    if |line| == LINE_LONG + 1 {
      assert line == line[..LINE_LONG] + [BACKSLASH];
    }
  }

  lemma {:induction false} NulJoined(lines: seq<Text>)
    requires forall i :: 0 <= i < |lines| ==> GoodLine(lines[i])
    ensures NUL in Joined(lines) <==> HasNul(lines)
  {
    if lines != [] {
      NulJoined(Front(lines));
      NulKept(Last(lines));
    }
  }

  lemma ShownLine(line: Text)
    requires GoodLine(line)
    ensures |Kept(Shown(line))| <= |Kept(line)|
    ensures NUL in line ==> |Kept(Shown(line))| < |Kept(line)|
    ensures NUL !in line ==> Shown(line) == line
  {
    ShownExact(line);
    if |line| == LINE_LONG + 1 && NUL in line {
      CutLineWithNul(line);
    }
  }

  lemma CutLineWithNul(line: Text)
    requires |line| == LINE_LONG + 1 && line[LINE_LONG] == BACKSLASH && NUL in line
    ensures |Shown(line)| < LINE_LONG
  {
    var k :| 0 <= k < |line| && line[k] == NUL;
    ShownUpTo(line, k);
    ShownExact(line[..k]);
  }

  lemma {:induction false} ShownIsShorter(lines: seq<Text>)
    requires forall i :: 0 <= i < |lines| ==> GoodLine(lines[i])
    ensures |Joined(AllShown(lines))| <= |Joined(lines)|
    ensures HasNul(lines) ==> |Joined(AllShown(lines))| < |Joined(lines)|
  {
    if lines != [] {
      var front, line := Front(lines), Last(lines);
      ShownIsShorter(front);
      ShownLine(line);
      JoinedMore(AllShown(front), Shown(line));
      assert |Joined(lines)| == |Joined(front)| + |Kept(line)|;
    }
  }

  lemma {:induction false} ShownIsSame(lines: seq<Text>)
    requires !HasNul(lines)
    ensures AllShown(lines) == lines
  {
    if lines != [] {
      ShownIsSame(Front(lines));
      ShownExact(Last(lines));
    }
  }

  lemma AllShownMore(lines: seq<Text>, line: Text)
    ensures AllShown(lines + [line]) == AllShown(lines) + [Shown(line)]
  {
    assert Front(lines + [line]) == lines;
  }

  lemma {:induction false} NulStripped(input: Text)
    ensures NUL in Stripped(input) <==> NUL in input
  {
    if input != [] {
      NulStripped(Front(input));
      assert input == Front(input) + [Last(input)];
    }
  }

  /**
   Once the last line is flushed, as closing the device does, the printed lines hold the whole
   input exactly when it has no NUL.
   */
  lemma {:induction false} PrintedIsInput(input: Text)
    ensures Joined(AllShown(Flushed(Feed(State([], []), input)).lines)) == Stripped(input) <==> NUL !in input
  {
    var s := Feed(State([], []), input);
    var lines := Flushed(s).lines;
    ContentKept(State([], []), input);
    FlushKeeps(s);
    assert Content(State([], [])) + Stripped(input) == Stripped(input);
    assert Joined(lines) == Content(Flushed(s));
    NulJoined(lines);
    ShownIsShorter(lines);
    if !HasNul(lines) {
      ShownIsSame(lines);
    }
    NulStripped(input);
  }

  /** "A", NUL, "B": the line is printed as "A". */
  lemma NulHides()
    ensures var s := Flushed(Feed(State([], []), [65, NUL, 66]));
      s.lines == [[65, NUL, 66]] && AllShown(s.lines) == [[65]]
  {
    var start := State([], []);
    assert Feed(start, []) == start;
    FeedMore(start, [65, NUL, 66], 0);
    FeedMore(start, [65, NUL, 66], 1);
    FeedMore(start, [65, NUL, 66], 2);
    assert [65, NUL, 66][..0] == [] && [65, NUL, 66][..3] == [65, NUL, 66];
    assert Feed(start, [65, NUL, 66]).line == [65, NUL, 66];
    assert [65, NUL, 66][1..] == [NUL, 66];
    assert Shown([65, NUL, 66]) == [65] + Shown([NUL, 66]) == [65];
    assert Front([[65, NUL, 66]]) == [];
  }

  // ----- The driver

  class Port {
    const buffer: array<bv8>
    var curr: nat

    /** The kernel log. */
    var printed: seq<Text>

    ghost var lines: seq<Text>

    ghost predicate Valid()
      reads this, buffer
    {
      buffer.Length == MAX_ROOM && curr <= LINE_LONG && printed == AllShown(lines)
    }

    ghost function View(): State
      requires curr <= buffer.Length
      reads this, buffer
    {
      State(buffer[..curr], lines)
    }

    constructor ()
      ensures Valid() && View() == State([], []) && fresh(buffer)
    {
      buffer := new bv8[MAX_ROOM];
      curr, printed, lines := 0, [], [];
    }

    /** ldd_tty_flush(): the terminating NUL is stored in the buffer before it is printed. */
    method Flush()
      requires buffer.Length == MAX_ROOM && curr < MAX_ROOM && printed == AllShown(lines)
      modifies this, buffer
      ensures curr == 0 && View() == Flushed(old(View())) && printed == AllShown(lines)
    {
      if curr > 0 {
        ghost var line := buffer[..curr];
        buffer[curr] := NUL;
        assert buffer[..curr] == line;
        ShownUpTo(buffer[..], curr);
        printed := printed + [Shown(buffer[..])];
        AllShownMore(lines, line);
        lines := lines + [line];
        curr := 0;
      }
    }

    method Store(c: bv8)
      requires buffer.Length == MAX_ROOM && curr < MAX_ROOM
      modifies this`curr, buffer
      ensures curr == old(curr) + 1 && View() == old(View()).(line := old(View()).line + [c])
    {
      ghost var line := buffer[..curr];
      buffer[curr] := c;
      curr := curr + 1;
      assert buffer[..curr] == line + [c];
    }

    /** The head of the loop in ldd_tty_printk(). */
    method CutLong()
      requires Valid()
      modifies this, buffer
      ensures Valid() && curr < LINE_LONG && View() == Cut(old(View()))
    {
      if curr >= LINE_LONG {
        Store(BACKSLASH);
        Flush();
      }
    }

    /** One turn of the loop in ldd_tty_printk(); it takes a CR and an LF behind it together. */
    method Turn(buf: Text, i: nat) returns (next: nat)
      requires Valid() && i < |buf|
      modifies this, buffer
      ensures Valid() && View() == Put(old(View()), buf[i])
      ensures next == if i + 1 < |buf| && buf[i] == CR && buf[i + 1] == LF then i + 2 else i + 1
    {
      next := i + 1;
      CutLong();
      if buf[i] == CR {
        Flush();
        if i + 1 < |buf| && buf[i + 1] == LF {
          next := i + 2;
        }
      } else if buf[i] == LF {
        Flush();
      } else {
        Store(buf[i]);
      }
    }

    /** ldd_tty_printk() */
    method Printk(buf: Text) returns (count: nat)
      requires Valid()
      modifies this, buffer
      ensures Valid() && View() == Feed(old(View()), buf) && count == |buf|
    {
      ghost var start := View();
      var i := 0;
      while i < |buf|
        invariant 0 <= i <= |buf| && Valid() && View() == Feed(start, buf[..i])
      {
        FeedTurn(start, buf, i);
        i := Turn(buf, i);
      }
      assert buf[..i] == buf;
      return i;
    }

    /** The last close prints what is left. */
    method Shutdown()
      requires Valid()
      modifies this, buffer
      ensures Valid() && View() == Flushed(old(View()))
    {
      Flush();
    }

    method WriteRoom() returns (room: nat)
      requires Valid()
      ensures room == MAX_ROOM - |View().line| >= MAX_ROOM - LINE_LONG
    {
      room := MAX_ROOM - curr;
    }
  }

  /** Two writes on one port, and one write of both on another in the same state: the same is printed. */
  method WriteInTwo(p: Port, q: Port, a: Text, b: Text)
    requires p != q && p.buffer != q.buffer && p.Valid() && q.Valid() && p.View() == q.View()
    modifies p, p.buffer, q, q.buffer
    ensures p.Valid() && q.Valid() && p.View() == q.View() && p.printed == q.printed
  {
    var n := p.Printk(a);
    n := p.Printk(b);
    n := q.Printk(a + b);
    CutAnywhere(old(p.View()), a, b);
  }

  /** Open, write anything in any pieces, close: these are the lines in the log. */
  method OpenWriteClose(writes: seq<Text>) returns (printed: seq<Text>)
    ensures var input := Concat(writes, |writes|);
      var lines, left := AllPrinted(Pieces(input)) + CutOff(Open(input)), Rest(Open(input));
      printed == AllShown(if left == [] then lines else lines + [left])
  {
    var port := new Port();
    WriteAll(port, writes);
    LinesOfInput(Concat(writes, |writes|));
    port.Shutdown();
    printed := port.printed;
  }

  method WriteAll(port: Port, writes: seq<Text>)
    requires port.Valid()
    modifies port, port.buffer
    ensures port.Valid() && port.View() == Feed(old(port.View()), Concat(writes, |writes|))
  {
    ghost var start := port.View();
    var i := 0;
    while i < |writes|
      invariant 0 <= i <= |writes| && port.Valid() && port.View() == Feed(start, Concat(writes, i))
    {
      CutAnywhere(start, Concat(writes, i), writes[i]);
      var n := port.Printk(writes[i]);
      i := i + 1;
    }
  }

  function Concat(writes: seq<Text>, n: nat): Text
    requires n <= |writes|
  {
    if n == 0 then [] else Concat(writes, n - 1) + writes[n - 1]
  }
}
