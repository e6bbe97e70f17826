/**
 Newline framing of the stratum stream: reads arrive in arbitrary pieces, are cleared of null bytes,
 buffered under a cap, and cut into trimmed lines. Characters stand for ASCII bytes.
 */
module LineFraming {
  const MAX_LINE_BYTES: nat := 65_536

  predicate IsSpace(c: char) {
    c == ' ' || '\t' <= c <= '\r'
  }

  function TrimStart(s: string): (t: string)
    ensures |t| <= |s|
  {
    if s != "" && IsSpace(s[0]) then TrimStart(s[1..]) else s
  }

  function TrimEnd(s: string): (t: string)
    ensures t <= s
  {
    if s != "" && IsSpace(s[|s| - 1]) then TrimEnd(s[..|s| - 1]) else s
  }

  function Trim(s: string): string {
    TrimEnd(TrimStart(s))
  }

  const HTTP_STARTS: seq<string> := ["PRI * HTTP/2", "GET ", "POST ", "PUT ", "DELETE ", "HEAD ", "OPTIONS "]

  predicate StartsLikeHttp(line: string) {
    exists i :: 0 <= i < |HTTP_STARTS| && HTTP_STARTS[i] <= line
  }

  predicate HttpLike(line: string) {
    line == "SM" || StartsLikeHttp(line)
  }

  function StripNulls(s: string): string {
    if s == "" then "" else StripNulls(s[..|s| - 1]) + if s[|s| - 1] == '\0' then "" else [s[|s| - 1]]
  }

  // The first newline at or after `i`, or the length when there is none.
  function NewlineFrom(s: string, i: nat): (p: nat)
    requires i <= |s|
    ensures i <= p <= |s|
    decreases |s| - i
  {
    if i == |s| || s[i] == '\n' then i else NewlineFrom(s, i + 1)
  }

  function NewlineAt(s: string): (p: nat)
    ensures p <= |s|
  {
    NewlineFrom(s, 0)
  }

  lemma {:induction false} NewlineFacts(s: string, i: nat)
    requires i <= |s|
    ensures var p := NewlineFrom(s, i);
      (forall k :: i <= k < p ==> s[k] != '\n') && (p < |s| ==> s[p] == '\n')
    decreases |s| - i
  {
    if i < |s| && s[i] != '\n' {
      NewlineFacts(s, i + 1);
    }
  }

  // ---- the reference: lines of a whole stream -----------------------------------------------------------

  function Lines(s: string): seq<string>
    decreases |s|
  {
    var p := NewlineAt(s);
    if p == |s| then [] else [s[..p]] + Lines(s[p + 1..])
  }

  // What follows the last newline.
  function Tail(s: string): (t: string)
    ensures |t| <= |s|
    decreases |s|
  {
    var p := NewlineAt(s);
    if p == |s| then s else Tail(s[p + 1..])
  }

  // The trimmed nonempty lines, up to the first one that looks like HTTP.
  function Frames(lines: seq<string>): seq<string> {
    if lines == [] then [] else
    var line := Trim(lines[0]);
    if HttpLike(line) then []
    else (if line == "" then [] else [line]) + Frames(lines[1..])
  }

  predicate NoHttp(lines: seq<string>) {
    forall i :: 0 <= i < |lines| ==> !HttpLike(Trim(lines[i]))
  }

  function Unlines(lines: seq<string>): string {
    if lines == [] then "" else lines[0] + "\n" + Unlines(lines[1..])
  }

  lemma LinesStep(s: string, p: nat)
    requires p == NewlineAt(s) < |s|
    ensures Lines(s) == [s[..p]] + Lines(s[p + 1..])
    ensures Tail(s) == Tail(s[p + 1..])
  {
  }

  lemma NoLines(s: string)
    requires NewlineAt(s) == |s|
    ensures Lines(s) == [] && Tail(s) == s
  {
  }

  // Put together again, the lines and the tail are the stream.
  lemma {:induction false} LinesRebuild(s: string)
    ensures Unlines(Lines(s)) + Tail(s) == s
    decreases |s|
  {
    var p := NewlineAt(s);
    if p < |s| {
      NewlineFacts(s, 0);
      LinesStep(s, p);
      LinesRebuild(s[p + 1..]);
      RebuildStep(s, p, Lines(s[p + 1..]), Tail(s[p + 1..]));
    } else {
      NoLines(s);
    }
  }

  lemma RebuildStep(s: string, p: nat, lines: seq<string>, tail: string)
    requires p < |s| && s[p] == '\n' && Unlines(lines) + tail == s[p + 1..]
    ensures Unlines([s[..p]] + lines) + tail == s
  {
    var line := s[..p];
    assert ([line] + lines)[1..] == lines;
    assert s == line + "\n" + s[p + 1..];
    assert line + "\n" + Unlines(lines) + tail == line + "\n" + (Unlines(lines) + tail);
  }

  // No newline is left inside a line or in the tail.
  lemma {:induction false} LinesHoldNoNewline(s: string)
    ensures '\n' !in Tail(s) && forall i :: 0 <= i < |Lines(s)| ==> '\n' !in Lines(s)[i]
    decreases |s|
  {
    var p := NewlineAt(s);
    NewlineFacts(s, 0);
    if p < |s| {
      LinesStep(s, p);
      LinesHoldNoNewline(s[p + 1..]);
      var line, lines := s[..p], Lines(s[p + 1..]);
      assert forall i :: 0 <= i < |[line] + lines| ==> ([line] + lines)[i] == if i == 0 then line else lines[i - 1];
    } else {
      NoLines(s);
    }
  }

  lemma {:induction false} LinesConcat(a: string, b: string)
    ensures Lines(a + b) == Lines(a) + Lines(Tail(a) + b)
    ensures Tail(a + b) == Tail(Tail(a) + b)
    decreases |a|
  {
    var p := NewlineAt(a);
    if p < |a| {
      LinesConcat(a[p + 1..], b);
      LinesOfConcat(a, b, p);
      LinesStep(a, p);
      Regroup(a[..p], Lines(a[p + 1..]), Lines(Tail(a[p + 1..]) + b));
    } else {
      NoLines(a);
    }
  }

  lemma LinesOfConcat(a: string, b: string, p: nat)
    requires p == NewlineAt(a) < |a|
    ensures Lines(a + b) == [a[..p]] + Lines(a[p + 1..] + b)
    ensures Tail(a + b) == Tail(a[p + 1..] + b)
  {
    NewlinePrefix(a, b, 0);
    assert (a + b)[..p] == a[..p];
    assert (a + b)[p + 1..] == a[p + 1..] + b;
    LinesStep(a + b, p);
  }

  lemma Regroup(h: string, x: seq<string>, y: seq<string>)
    ensures [h] + (x + y) == [h] + x + y
  {
  }

  lemma {:induction false} NewlinePrefix(a: string, b: string, i: nat)
    requires i <= |a| && NewlineFrom(a, i) < |a|
    ensures NewlineFrom(a + b, i) == NewlineFrom(a, i)
    decreases |a| - i
  {
    if a[i] != '\n' {
      NewlinePrefix(a, b, i + 1);
    }
  }

  lemma {:induction false} FramesConcat(a: seq<string>, b: seq<string>)
    requires NoHttp(a)
    ensures Frames(a + b) == Frames(a) + Frames(b)
    decreases |a|
  {
    if a == [] {
      assert a + b == b;
    } else {
      FramesConcat(a[1..], b);
      assert (a + b)[0] == a[0] && (a + b)[1..] == a[1..] + b;
      var line := Trim(a[0]);
      var first := if line == "" then [] else [line];
      assert first + Frames(a[1..]) + Frames(b) == first + (Frames(a[1..]) + Frames(b));
    }
  }

  // ---- extraction from the buffer ------------------------------------------------------------------------

  datatype Extraction = Extraction(frames: seq<string>, rest: string, ok: bool)

  // Cut lines off the front until there is no newline left or a line looks like HTTP.
  function Extract(text: string): Extraction
    decreases |text|
  {
    var p := NewlineAt(text);
    if p == |text| then Extraction([], text, true) else
    var line, rest := Trim(text[..p]), text[p + 1..];
    if HttpLike(line) then Extraction([], rest, false) else
    var x := Extract(rest);
    Extraction((if line == "" then [] else [line]) + x.frames, x.rest, x.ok)
  }

  lemma ExtractStep(text: string, p: nat)
    requires p == NewlineAt(text) < |text|
    ensures var line, x := Trim(text[..p]), Extract(text[p + 1..]);
      Extract(text) == if HttpLike(line) then Extraction([], text[p + 1..], false)
                       else Extraction((if line == "" then [] else [line]) + x.frames, x.rest, x.ok)
  {
  }

  lemma FramesStep(line: string, lines: seq<string>)
    ensures Frames([line] + lines)
         == if HttpLike(Trim(line)) then [] else (if Trim(line) == "" then [] else [Trim(line)]) + Frames(lines)
    ensures NoHttp([line] + lines) <==> !HttpLike(Trim(line)) && NoHttp(lines)
  {
    assert ([line] + lines)[1..] == lines;
    NoHttpCons([line] + lines);
  }

  lemma {:induction false} ExtractIsLines(text: string)
    ensures var x := Extract(text);
      && x.frames == Frames(Lines(text))
      && (x.ok <==> NoHttp(Lines(text)))
      && (x.ok ==> x.rest == Tail(text))
    decreases |text|
  {
    var p := NewlineAt(text);
    if p < |text| {
      ExtractIsLines(text[p + 1..]);
      ExtractStep(text, p);
      LinesStep(text, p);
      FramesStep(text[..p], Lines(text[p + 1..]));
    } else {
      NoLines(text);
    }
  }

  // The extraction loop.
  method ExtractLines(buffer: string) returns (dispatched: seq<string>, rest: string, ok: bool)
    ensures Extraction(dispatched, rest, ok) == Extract(buffer)
  {
    dispatched, rest, ok := [], buffer, true;
    while NewlineAt(rest) < |rest|
      invariant ok && Prefixed(dispatched, Extract(rest)) == Extract(buffer)
      decreases |rest|
    {
      var p := NewlineAt(rest);
      ExtractStep(rest, p);
      var line := Trim(rest[..p]);
      rest := rest[p + 1..];
      if line != "" {
        if HttpLike(line) {
          ok := false;
          assert dispatched + [] == dispatched;
          return;
        }
        PrefixedTwice(dispatched, [line], Extract(rest));
        dispatched := dispatched + [line];
      } else {
        EmptyIsNotHttp();
        PrefixedTwice(dispatched, [], Extract(rest));
        assert dispatched + [] == dispatched;
      }
    }
  }

  function Prefixed(frames: seq<string>, x: Extraction): Extraction {
    x.(frames := frames + x.frames)
  }

  lemma PrefixedTwice(a: seq<string>, b: seq<string>, x: Extraction)
    ensures Prefixed(a, Prefixed(b, x)) == Prefixed(a + b, x)
  {
    assert a + (b + x.frames) == a + b + x.frames;
  }

  lemma EmptyIsNotHttp()
    ensures !HttpLike("")
  {
  }

  lemma NoHttpCons(lines: seq<string>)
    requires lines != []
    ensures NoHttp(lines) <==> !HttpLike(Trim(lines[0])) && NoHttp(lines[1..])
  {
    if NoHttp(lines[1..]) && !HttpLike(Trim(lines[0])) {
      forall i | 0 <= i < |lines|
        ensures !HttpLike(Trim(lines[i]))
      {
        assert i > 0 ==> lines[i] == lines[1..][i - 1];
      }
    }
  }

  // ---- one read ------------------------------------------------------------------------------------------

  datatype Conn = Conn(buffer: string, first: bool, open: bool, frames: seq<string>)

  const FRESH := Conn("", true, true, [])

  function FirstLine(data: string): string {
    data[..NewlineAt(data)]
  }

  // The first read is checked as it stands, whether or not its line is complete.
  predicate TripsFirstCheck(data: string) {
    HttpLike(Trim(FirstLine(data)))
  }

  function OnRead(c: Conn, chunk: string): Conn {
    var data := StripNulls(chunk);
    if !c.open then c
    else if c.first && TripsFirstCheck(data) then c.(open := false)
    else if |c.buffer| + |data| > MAX_LINE_BYTES then c.(first := false, open := false)
    else
      var x := Extract(c.buffer + data);
      Conn(x.rest, false, x.ok, c.frames + x.frames)
  }

  class LineReader {
    var lineBuffer: string
    var firstMessage: bool
    var connected: bool
    ghost var frames: seq<string>

    ghost function State(): Conn
      reads this
    {
      Conn(lineBuffer, firstMessage, connected, frames)
    }

    constructor ()
      ensures State() == FRESH
    {
      lineBuffer, firstMessage, connected, frames := "", true, true, [];
    }

    // Refuses, and leaves the buffer alone, when the data would not fit.
    method AppendLineData(data: string) returns (ok: bool)
      modifies `lineBuffer
      ensures ok <==> old(|lineBuffer|) + |data| <= 65_536
      ensures lineBuffer == old(lineBuffer) + if ok then data else ""
    {
      ok := |lineBuffer| + |data| <= MAX_LINE_BYTES;
      if ok {
        lineBuffer := lineBuffer + data;
      } else {
        assert lineBuffer + "" == lineBuffer;
      }
    }

    method Read(chunk: string) returns (dispatched: seq<string>)
      requires connected
      modifies this
      ensures State() == OnRead(old(State()), chunk)
      ensures frames == old(frames) + dispatched
    {
      dispatched := [];
      var data := DropNulls(chunk);
      if firstMessage {
        if HttpLike(Trim(FirstLine(data))) {
          connected := false;
          return;
        }
        firstMessage := false;
      }
      var ok := AppendLineData(data);
      if !ok {
        connected := false;
        return;
      }
      dispatched, lineBuffer, connected := ExtractLines(lineBuffer);
      frames := frames + dispatched;
    }

    method DropNulls(chunk: string) returns (data: string)
      ensures data == StripNulls(chunk)
    {
      data := "";
      for i := 0 to |chunk|
        invariant data == StripNulls(chunk[..i])
      {
        assert chunk[..i + 1][..i] == chunk[..i];
        if chunk[i] != '\0' {
          data := data + [chunk[i]];
        } else {
          assert data + "" == data;
        }
      }
      assert chunk[..|chunk|] == chunk;
    }
  }
}
