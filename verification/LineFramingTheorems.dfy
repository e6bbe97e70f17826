/**
 Whatever way the stream is cut into reads, the frames are those of the stream as a whole.
 */
module LineFramingTheorems {
  import opened LineFraming

  function Feed(chunks: seq<string>): Conn {
    if chunks == [] then FRESH else OnRead(Feed(chunks[..|chunks| - 1]), chunks[|chunks| - 1])
  }

  function Concat(chunks: seq<string>): string {
    if chunks == [] then "" else Concat(chunks[..|chunks| - 1]) + chunks[|chunks| - 1]
  }

  // Everything received, without the null bytes.
  function Stream(chunks: seq<string>): string {
    StripNulls(Concat(chunks))
  }

  lemma {:induction false} StripConcat(a: string, b: string)
    ensures StripNulls(a + b) == StripNulls(a) + StripNulls(b)
    decreases |b|
  {
    if b == "" {
      assert a + b == a;
    } else {
      var init := b[..|b| - 1];
      StripConcat(a, init);
      assert (a + b)[..|a + b| - 1] == a + init;
    }
  }

  lemma StreamStep(chunks: seq<string>)
    requires chunks != []
    ensures Stream(chunks) == Stream(chunks[..|chunks| - 1]) + StripNulls(chunks[|chunks| - 1])
  {
    StripConcat(Concat(chunks[..|chunks| - 1]), chunks[|chunks| - 1]);
  }

  // A read is taken: it passes the first-message check, fits the cap, and completes no HTTP-like line.
  predicate TakenAfter(first: bool, s: string, data: string) {
    && (first ==> !TripsFirstCheck(data))
    && |Tail(s)| + |data| <= MAX_LINE_BYTES
    && NoHttp(Lines(s + data))
  }

  predicate Taken(chunks: seq<string>, n: nat)
    requires n < |chunks|
  {
    TakenAfter(n == 0, Stream(chunks[..n]), StripNulls(chunks[n]))
  }

  // The connection holds exactly what the stream so far comes to.
  ghost predicate InStep(c: Conn, s: string) {
    && c.open
    && c.frames == Frames(Lines(s))
    && c.buffer == Tail(s)
    && NoHttp(Lines(s))
  }

  lemma NoHttpPrefix(a: seq<string>, b: seq<string>)
    ensures NoHttp(a + b) <==> NoHttp(a) && NoHttp(b)
  {
    if NoHttp(a + b) {
      assert forall i :: 0 <= i < |a| ==> a[i] == (a + b)[i];
      assert forall i :: 0 <= i < |b| ==> b[i] == (a + b)[|a| + i];
    }
  }

  // One accepted read: the extraction from the buffer is the extraction from the whole stream.
  lemma ExtractContinues(c: Conn, s: string, data: string)
    requires InStep(c, s)
    ensures var x := Extract(c.buffer + data);
      && c.frames + x.frames == Frames(Lines(s + data))
      && (x.ok <==> NoHttp(Lines(s + data)))
      && (x.ok ==> x.rest == Tail(s + data))
  {
    ExtractIsLines(c.buffer + data);
    LinesConcat(s, data);
    FramesConcat(Lines(s), Lines(Tail(s) + data));
    NoHttpPrefix(Lines(s), Lines(Tail(s) + data));
  }

  ghost predicate Follows(c: Conn, s: string, data: string, c': Conn) {
    && (c'.open <==> TakenAfter(c.first, s, data))
    && (c'.open ==> InStep(c', s + data) && !c'.first)
    && (c'.frames == c.frames || c'.frames == Frames(Lines(s + data)))
  }

  lemma ReadStep(c: Conn, s: string, chunk: string)
    requires InStep(c, s)
    ensures Follows(c, s, StripNulls(chunk), OnRead(c, chunk))
  {
    ExtractContinues(c, s, StripNulls(chunk));
  }

  /**
   The connection stays open exactly while every read is taken, and it has then dispatched the trimmed
   nonempty lines of the whole null-stripped stream, in order, and holds its unfinished tail.
   */
  lemma {:induction false} OpenIffAllTaken(chunks: seq<string>)
    ensures Feed(chunks).open <==> AllTaken(chunks)
    ensures Feed(chunks).open ==> InStep(Feed(chunks), Stream(chunks)) && (Feed(chunks).first <==> chunks == [])
  {
    if chunks == [] {
      FreshInStep();
    } else {
      OpenIffAllTaken(chunks[..|chunks| - 1]);
      AllTakenStep(chunks);
      FeedStep(chunks);
    }
  }

  ghost predicate AllTaken(chunks: seq<string>) {
    forall n :: 0 <= n < |chunks| ==> Taken(chunks, n)
  }

  lemma AllTakenStep(chunks: seq<string>)
    requires chunks != []
    ensures AllTaken(chunks) <==> AllTaken(chunks[..|chunks| - 1]) && Taken(chunks, |chunks| - 1)
  {
    var last := |chunks| - 1;
    TakenPrefix(chunks, last);
    if AllTaken(chunks) {
      assert forall n :: 0 <= n < last ==> Taken(chunks, n);
    }
  }

  lemma FollowsTaken(chunks: seq<string>, c: Conn, c': Conn)
    requires chunks != [] && (c.first <==> |chunks| == 1)
    requires Follows(c, Stream(chunks[..|chunks| - 1]), StripNulls(chunks[|chunks| - 1]), c')
    ensures c'.open <==> Taken(chunks, |chunks| - 1)
    ensures c'.open ==> InStep(c', Stream(chunks)) && !c'.first
  {
    StreamStep(chunks);
  }

  lemma FeedStep(chunks: seq<string>)
    requires chunks != []
    requires var before, s := Feed(chunks[..|chunks| - 1]), Stream(chunks[..|chunks| - 1]);
      before.open ==> InStep(before, s) && (before.first <==> |chunks| == 1)
    ensures Feed(chunks).open <==> Feed(chunks[..|chunks| - 1]).open && Taken(chunks, |chunks| - 1)
    ensures Feed(chunks).open ==> InStep(Feed(chunks), Stream(chunks)) && !Feed(chunks).first
  {
    var last := |chunks| - 1;
    var before := Feed(chunks[..last]);
    if before.open {
      ReadStep(before, Stream(chunks[..last]), chunks[last]);
      FollowsTaken(chunks, before, OnRead(before, chunks[last]));
    }
  }

  lemma FreshInStep()
    ensures InStep(FRESH, Stream([]))
  {
    NoLines("");
  }

  lemma TakenPrefix(chunks: seq<string>, m: nat)
    requires m <= |chunks|
    ensures forall n :: 0 <= n < m ==> (Taken(chunks[..m], n) <==> Taken(chunks, n))
  {
    forall n | 0 <= n < m
      ensures Taken(chunks[..m], n) <==> Taken(chunks, n)
    {
      assert chunks[..m][..n] == chunks[..n];
    }
  }

  // The buffer never holds a newline and never exceeds the cap.
  lemma BufferIsBounded(chunks: seq<string>)
    requires Feed(chunks).open
    ensures '\n' !in Feed(chunks).buffer && |Feed(chunks).buffer| <= 65_536
  {
    OpenIffAllTaken(chunks);
    LinesHoldNoNewline(Stream(chunks));
    if chunks != [] {
      var last := |chunks| - 1;
      assert Taken(chunks, last);
      StreamStep(chunks);
      LinesConcat(Stream(chunks[..last]), StripNulls(chunks[last]));
    } else {
      NoLines("");
    }
  }

  // Two ways of cutting the same stream that both survive dispatch the same frames.
  lemma ChunkingIsIrrelevant(a: seq<string>, b: seq<string>)
    requires Concat(a) == Concat(b) && Feed(a).open && Feed(b).open
    ensures Feed(a).frames == Feed(b).frames && Feed(a).buffer == Feed(b).buffer
  {
    OpenIffAllTaken(a);
    OpenIffAllTaken(b);
  }

  /**
   Closed or not, nothing is ever dispatched that is not, in this order, a line of the stream.
   */
  lemma {:induction false} DispatchedIsPrefix(chunks: seq<string>)
    ensures Feed(chunks).frames <= Frames(Lines(Stream(chunks)))
  {
    if chunks != [] {
      var last := |chunks| - 1;
      var before, s, data := Feed(chunks[..last]), Stream(chunks[..last]), StripNulls(chunks[last]);
      DispatchedIsPrefix(chunks[..last]);
      StreamStep(chunks);
      LinesConcat(s, data);
      FramesGrow(Lines(s), Lines(Tail(s) + data));
      OpenIffAllTaken(chunks[..last]);
      if before.open {
        ReadStep(before, s, chunks[last]);
      }
    }
  }

  lemma {:induction false} FramesGrow(a: seq<string>, b: seq<string>)
    ensures Frames(a) <= Frames(a + b)
    decreases |a|
  {
    if a != [] {
      FramesGrow(a[1..], b);
      assert (a + b)[1..] == a[1..] + b;
    }
  }

  // ---- the first-message check ----------------------------------------------------------------------------

  lemma {:induction false} TrimStartExtends(x: string, more: string)
    requires TrimStart(x) != ""
    ensures TrimStart(x + more) == TrimStart(x) + more
    decreases |x|
  {
    if x != "" && IsSpace(x[0]) {
      TrimStartExtends(x[1..], more);
      assert (x + more)[1..] == x[1..] + more;
    }
  }

  lemma {:induction false} TrimEndExtends(x: string, more: string)
    ensures TrimEnd(x) <= TrimEnd(x + more)
    decreases |more|
  {
    if more == "" {
      assert x + more == x;
    } else if IsSpace(more[|more| - 1]) {
      TrimEndExtends(x, more[..|more| - 1]);
      assert (x + more)[..|x + more| - 1] == x + more[..|more| - 1];
    } else {
      assert (x + more)[|x + more| - 1] == more[|more| - 1];
    }
  }

  // What a line starts with, it still starts with when more arrives.
  lemma TrimExtends(x: string, more: string)
    requires Trim(x) != ""
    ensures Trim(x) <= Trim(x + more)
  {
    TrimStartExtends(x, more);
    TrimEndExtends(TrimStart(x), more);
  }

  lemma HttpStartPersists(x: string, more: string)
    requires StartsLikeHttp(Trim(x))
    ensures StartsLikeHttp(Trim(x + more))
  {
    var i :| 0 <= i < |HTTP_STARTS| && HTTP_STARTS[i] <= Trim(x);
    TrimExtends(x, more);
    assert HTTP_STARTS[i] <= Trim(x + more);
  }

  // The first line of a stream is one of its lines, or its tail.
  lemma FirstLineIsALine(s: string)
    ensures FirstLine(s) == (Lines(s) + [Tail(s)])[0]
  {
    if NewlineAt(s) < |s| {
      LinesStep(s, NewlineAt(s));
    } else {
      NoLines(s);
    }
  }

  lemma {:induction false} NewlineBeyond(d: string, rest: string, i: nat)
    requires i <= |d| && NewlineFrom(d, i) == |d|
    ensures NewlineFrom(d + rest, i) >= |d|
    decreases |d| - i
  {
    if i < |d| {
      NewlineBeyond(d, rest, i + 1);
    }
  }

  lemma FirstLineExtends(d: string, rest: string) returns (more: string)
    ensures NewlineAt(d) < |d| ==> FirstLine(d + rest) == FirstLine(d)
    ensures NewlineAt(d) == |d| ==> FirstLine(d) == d && FirstLine(d + rest) == d + more
  {
    more := "";
    if NewlineAt(d) < |d| {
      NewlinePrefix(d, rest, 0);
    } else {
      NewlineBeyond(d, rest, 0);
      more := (d + rest)[|d|..NewlineAt(d + rest)];
    }
  }

  // The first check on a stream whose lines are clean: a cut after "SM", or an HTTP-like line that never ends.
  ghost predicate CutShort(d: string, s: string) {
    NewlineAt(d) == |d| && (Trim(d) == "SM" || (Lines(s) == [] && StartsLikeHttp(Trim(d))))
  }

  lemma FirstCheckMeans(d: string, rest: string)
    requires NoHttp(Lines(d + rest))
    ensures TripsFirstCheck(d) <==> CutShort(d, d + rest)
  {
    var s := d + rest;
    var more := FirstLineExtends(d, rest);
    if Lines(s) != [] {
      FirstLineIsALine(s);
      assert !HttpLike(Trim(Lines(s)[0]));
      if NewlineAt(d) == |d| && StartsLikeHttp(Trim(d)) {
        HttpStartPersists(d, more);
      }
    } else {
      NewlineStays(d, rest);
    }
  }

  lemma NewlineStays(d: string, rest: string)
    ensures NewlineAt(d) < |d| ==> Lines(d + rest) != []
  {
    if NewlineAt(d) < |d| {
      NewlinePrefix(d, rest, 0);
    }
  }

  lemma {:induction false} StreamPrefix(chunks: seq<string>, n: nat) returns (rest: string)
    requires n <= |chunks|
    ensures Stream(chunks) == Stream(chunks[..n]) + rest
    decreases |chunks|
  {
    if n == |chunks| {
      assert chunks[..n] == chunks;
      rest := "";
    } else {
      var init := chunks[..|chunks| - 1];
      var r := StreamPrefix(init, n);
      assert init[..n] == chunks[..n];
      StreamStep(chunks);
      rest := r + StripNulls(chunks[|chunks| - 1]);
    }
  }

  predicate FitsCap(chunks: seq<string>) {
    forall n :: 0 <= n < |chunks| ==> |Tail(Stream(chunks[..n]))| + |StripNulls(chunks[n])| <= 65_536
  }

  /**
   The connection survives exactly when every read fits the cap, no line of the stream looks like HTTP, and
   the first read is not cut short: the bare "SM" of a longer line, or an HTTP-like line that never ends.
   */
  lemma SurvivesUnlessCutAfterSM(chunks: seq<string>)
    requires chunks != []
    ensures Feed(chunks).open
       <==> FitsCap(chunks) && NoHttp(Lines(Stream(chunks))) && !CutShort(StripNulls(chunks[0]), Stream(chunks))
  {
    OpenIffAllTaken(chunks);
    var d := StripNulls(chunks[0]);
    FirstReadIsPrefix(chunks);
    var rest := StreamPrefix(chunks, 1);
    if Feed(chunks).open {
      OpenFits(chunks);
    }
    if NoHttp(Lines(Stream(chunks))) {
      FirstCheckMeans(d, rest);
      AllTakenUnlessTrips(chunks);
    }
  }

  lemma OpenFits(chunks: seq<string>)
    requires AllTaken(chunks)
    ensures FitsCap(chunks)
  {
    forall n | 0 <= n < |chunks|
      ensures |Tail(Stream(chunks[..n]))| + |StripNulls(chunks[n])| <= MAX_LINE_BYTES
    {
      assert Taken(chunks, n);
    }
  }

  lemma AllTakenUnlessTrips(chunks: seq<string>)
    requires chunks != [] && NoHttp(Lines(Stream(chunks)))
    ensures FitsCap(chunks) ==> (AllTaken(chunks) <==> !TripsFirstCheck(StripNulls(chunks[0])))
  {
    if FitsCap(chunks) {
      forall n | 0 <= n < |chunks|
        ensures Taken(chunks, n) <==> (n == 0 ==> !TripsFirstCheck(StripNulls(chunks[0])))
      {
        TakenUnlessTrips(chunks, n);
      }
      assert Taken(chunks, 0) <==> !TripsFirstCheck(StripNulls(chunks[0]));
    }
  }

  lemma TakenUnlessTrips(chunks: seq<string>, n: nat)
    requires n < |chunks| && FitsCap(chunks) && NoHttp(Lines(Stream(chunks)))
    ensures Taken(chunks, n) <==> (n == 0 ==> !TripsFirstCheck(StripNulls(chunks[0])))
  {
    PrefixHasNoHttp(chunks, n + 1);
    StreamStep(chunks[..n + 1]);
    assert chunks[..n + 1][..n] == chunks[..n];
  }

  lemma PrefixHasNoHttp(chunks: seq<string>, n: nat)
    requires n <= |chunks| && NoHttp(Lines(Stream(chunks)))
    ensures NoHttp(Lines(Stream(chunks[..n])))
  {
    var p := Stream(chunks[..n]);
    var more := StreamPrefix(chunks, n);
    LinesConcat(p, more);
    NoHttpPrefix(Lines(p), Lines(Tail(p) + more));
  }

  lemma FirstReadIsPrefix(chunks: seq<string>)
    requires chunks != []
    ensures Stream(chunks[..1]) == StripNulls(chunks[0])
  {
    assert chunks[..1][..0] == [];
    assert Concat(chunks[..1]) == "" + chunks[0] == chunks[0];
  }

  // So the cut does matter: a first read of "SM" is refused whatever follows it.
  lemma CutAfterSMIsRefused(d: string, rest: string)
    requires NewlineAt(StripNulls(d)) == |StripNulls(d)| && Trim(StripNulls(d)) == "SM"
    ensures Concat([d, rest]) == d + rest
    ensures !Feed([d, rest]).open && Feed([d, rest]).frames == []
  {
    var data := StripNulls(d);
    assert FirstLine(data) == data;
    assert [d, rest][..1] == [d];
    assert [d][..0] == [];
    assert Concat([d]) == "" + d == d;
    assert Feed([d]) == OnRead(FRESH, d);
  }

  lemma SMIsSuchARead()
    ensures NewlineAt(StripNulls("SM")) == |StripNulls("SM")| && Trim(StripNulls("SM")) == "SM"
  {
    PlainText("SM");
  }

  lemma {:induction false} PlainText(s: string)
    requires '\0' !in s
    ensures StripNulls(s) == s
    decreases |s|
  {
    if s != "" {
      PlainText(s[..|s| - 1]);
    }
  }

  // Uncut, the same bytes survive whenever their first line is complete and no line looks like HTTP.
  lemma UncutSurvives(d: string, rest: string)
    requires var s := StripNulls(d + rest); |s| <= MAX_LINE_BYTES && Lines(s) != [] && NoHttp(Lines(s))
    ensures Feed([d + rest]).open && Feed([d + rest]).frames == Frames(Lines(StripNulls(d + rest)))
  {
    var chunks, s := [d + rest], StripNulls(d + rest);
    OneRead(d + rest);
    NoLines("");
    SurvivesUnlessCutAfterSM(chunks);
    OpenIffAllTaken(chunks);
  }

  lemma OneRead(chunk: string)
    ensures Stream([chunk]) == StripNulls(chunk) && Stream([chunk][..0]) == ""
  {
    assert [chunk][..1] == [chunk] && [chunk][..0] == [];
    FirstReadIsPrefix([chunk]);
  }

  lemma OneLine(line: string)
    requires '\n' !in line
    ensures Lines(line + "\n") == [line]
  {
    var s := line + "\n";
    NewlineFacts(s, 0);
    assert s[|line|] == '\n';
    assert NewlineAt(s) == |line|;
    LinesStep(s, |line|);
    assert s[..|line|] == line && s[|line| + 1..] == "";
    NoLines("");
  }

  lemma LineSurvives(line: string)
    requires '\n' !in line && '\0' !in line && |line| < MAX_LINE_BYTES && Trim(line) != "" && !HttpLike(Trim(line))
    ensures Feed([line + "\n"]).open && Feed([line + "\n"]).frames == [Trim(line)]
  {
    PlainText(line + "\n");
    OneLine(line);
    OneFrame(line);
    UncutSurvives(line, "\n");
  }

  lemma OneFrame(line: string)
    requires Trim(line) != "" && !HttpLike(Trim(line))
    ensures Frames([line]) == [Trim(line)]
  {
    assert Frames([line]) == [Trim(line)] + Frames([line][1..]);
  }

  lemma SameStream(line: string, a: string, b: string)
    requires a + b == line
    ensures Concat([a, b]) == Concat([line]) == line
  {
    assert [a, b][..1] == [a] && [a][..0] == [] && [line][..0] == [];
    assert Concat([a]) == "" + a == a && Concat([line]) == "" + line == line;
  }

  // One stream, two cuts: in one read its line is dispatched, cut after the second byte it is refused.
  lemma TheCutMatters(line: string, rest: string)
    requires line == "SM" + rest && '\n' !in line && '\0' !in line && |line| < MAX_LINE_BYTES
    requires Trim(line) != "" && !HttpLike(Trim(line))
    ensures Concat(["SM", rest + "\n"]) == Concat([line + "\n"])
    ensures Feed([line + "\n"]).open && Feed([line + "\n"]).frames == [Trim(line)]
    ensures !Feed(["SM", rest + "\n"]).open && Feed(["SM", rest + "\n"]).frames == []
  {
    LineSurvives(line);
    SMIsSuchARead();
    CutAfterSMIsRefused("SM", rest + "\n");
    assert "SM" + (rest + "\n") == line + "\n";
    SameStream(line + "\n", "SM", rest + "\n");
  }
}
