/** What the text of a dispatched frame is, apart from how it is cut out: trimming, null bytes, blank lines. */
module FrameText {
  import opened LineFraming

  // Space is the blank and the five control characters from tab to carriage return.
  lemma SpaceIs(c: char)
    ensures IsSpace(c) <==> c in " \t\n\U{0B}\U{0C}\r"
  {
    assert forall i :: 0 <= i < 6 ==> IsSpace(" \t\n\U{0B}\U{0C}\r"[i]);
    if IsSpace(c) && c != ' ' {
      assert c == " \t\n\U{0B}\U{0C}\r"[1 + (c - '\t') as int];
    }
  }

  // The lines that end a connection: HTTP requests, and the preface of HTTP/2 with its second line.
  lemma HttpLikeIs(line: string)
    ensures HttpLike(line)
       <==> (line == "SM" || "PRI * HTTP/2" <= line || "GET " <= line || "POST " <= line || "PUT " <= line
             || "DELETE " <= line || "HEAD " <= line || "OPTIONS " <= line)
  {
    assert HTTP_STARTS[0] == "PRI * HTTP/2" && HTTP_STARTS[1] == "GET " && HTTP_STARTS[2] == "POST ";
    assert HTTP_STARTS[3] == "PUT " && HTTP_STARTS[4] == "DELETE " && HTTP_STARTS[5] == "HEAD ";
    assert HTTP_STARTS[6] == "OPTIONS ";
  }

  ghost predicate SpaceIn(s: string, i: int, j: int)
    requires 0 <= i <= j <= |s|
  {
    forall k :: i <= k < j ==> IsSpace(s[k])
  }

  predicate NoOuterSpace(t: string) {
    t == "" || (!IsSpace(t[0]) && !IsSpace(t[|t| - 1]))
  }

  // `t` is `s` without the spaces before and after it, all of them.
  ghost predicate IsTrimOf(s: string, t: string) {
    NoOuterSpace(t) && exists i, j :: Cuts(s, i, j, t)
  }

  ghost predicate Cuts(s: string, i: int, j: int, t: string) {
    0 <= i <= j <= |s| && SpaceIn(s, 0, i) && SpaceIn(s, j, |s|) && t == s[i..j]
  }

  lemma {:induction false} TrimStartCuts(s: string) returns (i: nat)
    ensures i <= |s| && SpaceIn(s, 0, i) && TrimStart(s) == s[i..]
    ensures i < |s| ==> !IsSpace(s[i])
  {
    i := 0;
    if s != "" && IsSpace(s[0]) {
      var k := TrimStartCuts(s[1..]);
      i := k + 1;
      assert forall m :: 1 <= m < i ==> s[m] == s[1..][m - 1];
    }
  }

  lemma {:induction false} TrimEndCuts(s: string)
    ensures SpaceIn(s, |TrimEnd(s)|, |s|)
    ensures TrimEnd(s) != "" ==> !IsSpace(s[|TrimEnd(s)| - 1])
  {
    if s != "" && IsSpace(s[|s| - 1]) {
      TrimEndCuts(s[..|s| - 1]);
    }
  }

  lemma TrimCuts(s: string)
    ensures IsTrimOf(s, Trim(s))
  {
    var i := TrimStartCuts(s);
    var mid, n := s[i..], |Trim(s)|;
    TrimEndCuts(mid);
    assert forall k :: i + n <= k < |s| ==> s[k] == mid[k - i];
    assert Cuts(s, i, i + n, Trim(s));
  }

  lemma TrimUnique(s: string, i: int, j: int, t: string, i': int, j': int, t': string)
    requires Cuts(s, i, j, t) && Cuts(s, i', j', t') && NoOuterSpace(t) && NoOuterSpace(t')
    ensures t == t'
  {
    if t != "" {
      assert t[0] == s[i] && t[|t| - 1] == s[j - 1];
    }
    if t' != "" {
      assert t'[0] == s[i'] && t'[|t'| - 1] == s[j' - 1];
    }
  }

  /**
   Trimming takes off all the space before and after a line, and nothing else.
   */
  lemma TrimIsExactly(s: string, t: string)
    ensures t == Trim(s) <==> IsTrimOf(s, t)
  {
    TrimCuts(s);
    if IsTrimOf(s, t) {
      var i, j :| Cuts(s, i, j, t);
      var k, m :| Cuts(s, k, m, Trim(s));
      TrimUnique(s, i, j, t, k, m, Trim(s));
    }
  }

  /**
   A read loses its null bytes and nothing else.
   */
  lemma {:induction false} OnlyNullsAreStripped(s: string)
    ensures multiset(StripNulls(s)) == multiset(s)['\0' := 0]
  {
    if s != "" {
      var init := s[..|s| - 1];
      OnlyNullsAreStripped(init);
      assert s == init + [s[|s| - 1]];
    }
  }

  // ---- the frames of a stream, line by line --------------------------------------------------------------

  // How many of the first n lines are not blank.
  function Nonblank(lines: seq<string>, n: nat): nat
    requires n <= |lines|
  {
    if n == 0 then 0 else Nonblank(lines, n - 1) + if Trim(lines[n - 1]) == "" then 0 else 1
  }

  lemma {:induction false} NonblankTail(lines: seq<string>, n: nat)
    requires 1 <= n <= |lines|
    ensures Nonblank(lines, n) == (if Trim(lines[0]) == "" then 0 else 1) + Nonblank(lines[1..], n - 1)
  {
    if n > 1 {
      NonblankTail(lines, n - 1);
    }
  }

  // The first n lines are clean, and line n is the end or looks like HTTP.
  predicate CleanTo(lines: seq<string>, n: nat) {
    n <= |lines| && NoHttp(lines[..n]) && (n < |lines| ==> HttpLike(Trim(lines[n])))
  }

  lemma CleanTail(lines: seq<string>, n: nat)
    requires CleanTo(lines, n) && n > 0
    ensures CleanTo(lines[1..], n - 1) && !HttpLike(Trim(lines[0]))
  {
    assert lines[..n][0] == lines[0];
    assert lines[1..][..n - 1] == lines[..n][1..];
  }

  lemma FramesCons(lines: seq<string>)
    requires lines != [] && !HttpLike(Trim(lines[0]))
    ensures Frames(lines) == (if Trim(lines[0]) == "" then [] else [Trim(lines[0])]) + Frames(lines[1..])
  {
  }

  lemma {:induction false} FramesCount(lines: seq<string>, n: nat)
    requires CleanTo(lines, n)
    ensures |Frames(lines)| == Nonblank(lines, n)
    decreases n
  {
    if n > 0 {
      CleanTail(lines, n);
      FramesCons(lines);
      FramesCount(lines[1..], n - 1);
      NonblankTail(lines, n);
    }
  }

  // The frame of line i is its trimmed text, at the place the line has among those that are not blank.
  ghost predicate Placed(lines: seq<string>, i: nat)
    requires i < |lines|
  {
    Nonblank(lines, i) < |Frames(lines)| && Frames(lines)[Nonblank(lines, i)] == Trim(lines[i])
  }

  lemma {:induction false} FrameIsPlaced(lines: seq<string>, n: nat, i: nat)
    requires CleanTo(lines, n) && i < n && Trim(lines[i]) != ""
    ensures Placed(lines, i)
    decreases n
  {
    CleanTail(lines, n);
    FramesCons(lines);
    if i > 0 {
      FrameIsPlaced(lines[1..], n - 1, i - 1);
      NonblankTail(lines, i);
    }
  }

  /**
   There is a frame for each line that is not blank, before the first that looks like HTTP: the line's trimmed
   text, at the place the line has among them.
   */
  lemma FramesAreTheLines(lines: seq<string>, n: nat)
    requires CleanTo(lines, n)
    ensures |Frames(lines)| == Nonblank(lines, n)
    ensures forall i :: 0 <= i < n && Trim(lines[i]) != "" ==> Placed(lines, i)
  {
    FramesCount(lines, n);
    forall i | 0 <= i < n && Trim(lines[i]) != ""
      ensures Placed(lines, i)
    {
      FrameIsPlaced(lines, n, i);
    }
  }
}
