/** When HttpResponse::read ends: on any text for the header, and on every message that was cut
    off somewhere. */
module HttpCuts {
  import opened Wrappers
  import opened Http

  // ---- The header loop on any text ----

  /** The text from b has its first carriage return at cr, and the first line feed after that
      just before e. */
  predicate Line(text: string, b: nat, cr: nat, e: nat) {
    && b <= cr && cr + 1 < e <= |text| && text[cr] == '\r' && text[e - 1] == '\n'
    && (forall i :: b <= i < cr ==> text[i] != '\r')
    && forall i :: cr < i < e - 1 ==> text[i] != '\n'
  }

  ghost predicate Follows(text: string, b: nat, e: nat) {
    exists cr: nat :: Line(text, b, cr, e)
  }

  /** Where lines start, from the beginning of the text. */
  ghost predicate LineStarts(text: string, starts: seq<nat>) {
    && starts != [] && starts[0] == 0
    && forall i :: 0 <= i < |starts| - 1 ==> Follows(text, starts[i], starts[i + 1])
  }

  /** A line that is empty, or the end of the data instead of a line. */
  predicate NoMore(text: string, b: nat) {
    b == |text| || (b < |text| && text[b] == '\r')
  }

  lemma LineAt(text: string, b: nat, cr: nat, e: nat, line: string)
    requires Line(text, b, cr, e)
    ensures ReadLine(On(text[b..]), line) == (On(text[e..]), text[b..cr])
  {
    var next, ignored, rest := text[b..cr], text[cr + 1..e - 1], text[e..];
    assert text[b..] == next + ['\r'] + (ignored + ['\n'] + rest);
    UpTo(next, '\r', ignored + ['\n'] + rest, line);
    UpTo(ignored, '\n', rest, "");
  }

  /** A line that is not empty: either it is a whole one, or the data ends in it. */
  lemma LineFrom(text: string, b: nat, line: string) returns (cr: nat, e: nat)
    requires b < |text| && text[b] != '\r'
    ensures ReadLine(On(text[b..]), line).1 != ""
    ensures ReadLine(On(text[b..]), line).0.good ==> Line(text, b, cr, e)
  {
    var s := text[b..];
    cr, e := b + Find(s, 0, '\r'), 0;
    assert s[0] == text[b];
    if cr < |text| {
      var after := s[cr - b + 1..];
      assert forall i :: 0 <= i < |after| ==> after[i] == text[cr + 1 + i];
      e := cr + 1 + Find(after, 0, '\n') + 1;
      assert forall i :: b <= i < cr ==> text[i] == s[i - b];
      assert forall i :: cr < i < e - 1 ==> text[i] == after[i - cr - 1];
    }
  }

  lemma StepFrom(s: Stream, h: Head, line: string)
    ensures var (s1, next) := ReadLine(s, line);
      ReadHead(s, h, line).HeadEnd? <==> next == "" || (s1.good && ReadHead(s1, AddLine(h, next), next).HeadEnd?)
  {
  }

  lemma {:induction false} EndsFrom(text: string, starts: seq<nat>, i: nat, h: Head, line: string)
    requires LineStarts(text, starts) && NoMore(text, starts[|starts| - 1]) && i < |starts| && starts[i] <= |text|
    ensures ReadHead(On(text[starts[i]..]), h, line).HeadEnd?
    decreases |starts| - i
  {
    var b := starts[i];
    StepFrom(On(text[b..]), h, line);
    if i == |starts| - 1 {
      EmptyAt(text, b, line);
    } else {
      var e := starts[i + 1];
      assert Follows(text, b, e);
      var cr: nat :| Line(text, b, cr, e);
      LineAt(text, b, cr, e, line);
      EndsFrom(text, starts, i + 1, AddLine(h, text[b..cr]), text[b..cr]);
    }
  }

  lemma EmptyAt(text: string, b: nat, line: string)
    requires NoMore(text, b)
    ensures ReadLine(On(text[b..]), line).1 == ""
  {
    assert Find(text[b..], 0, '\r') == 0;
  }

  lemma GoesOn(text: string, b: nat, h: Head, line: string) returns (cr: nat, e: nat)
    requires b < |text| && text[b] != '\r' && ReadHead(On(text[b..]), h, line).HeadEnd?
    ensures Line(text, b, cr, e)
    ensures ReadHead(On(text[e..]), AddLine(h, text[b..cr]), text[b..cr]).HeadEnd?
  {
    cr, e := LineFrom(text, b, line);
    StepFrom(On(text[b..]), h, line);
    LineAt(text, b, cr, e, line);
  }

  lemma {:induction false} StartsOf(text: string, before: seq<nat>, b: nat, h: Head, line: string)
    returns (starts: seq<nat>)
    requires LineStarts(text, before) && before[|before| - 1] == b <= |text|
    requires ReadHead(On(text[b..]), h, line).HeadEnd?
    ensures LineStarts(text, starts) && NoMore(text, starts[|starts| - 1])
    decreases |text| - b
  {
    starts := before;
    if !NoMore(text, b) {
      var cr, e := GoesOn(text, b, h, line);
      OneMoreStart(text, before, cr, e);
      starts := StartsOf(text, before + [e], e, AddLine(h, text[b..cr]), text[b..cr]);
    }
  }

  lemma OneMoreStart(text: string, before: seq<nat>, cr: nat, e: nat)
    requires LineStarts(text, before) && Line(text, before[|before| - 1], cr, e)
    ensures LineStarts(text, before + [e])
  {
    var more := before + [e];
    assert Follows(text, before[|before| - 1], e);
    forall i | 0 <= i < |more| - 1 ensures Follows(text, more[i], more[i + 1]) {
      if i < |before| - 1 {
        assert Follows(text, before[i], before[i + 1]);
      }
    }
  }

  /** For any text: the header loop ends if and only if some line start is followed by a carriage
      return or by nothing. Otherwise it repeats the last line for ever. */
  lemma HeaderEndsIff(text: string, before: Head)
    ensures ReadMessage(text, before).0.Some? <==>
      exists starts :: LineStarts(text, starts) && NoMore(text, starts[|starts| - 1])
    ensures ReadMessage(text, before).0.None? ==> ReadMessage(text, before).1 == Hangs
  {
    var h := before.(headers := map[]);
    assert text[0..] == text;
    if ReadHead(On(text), h, "").HeadEnd? {
      assert LineStarts(text, [0]);
      var starts := StartsOf(text, [0], 0, h, "");
    }
    if exists starts :: LineStarts(text, starts) && NoMore(text, starts[|starts| - 1]) {
      var starts :| LineStarts(text, starts) && NoMore(text, starts[|starts| - 1]);
      EndsFrom(text, starts, 0, h, "");
    }
  }

  /** No carriage return, no end. */
  lemma NoReturnHangs(text: string, before: Head)
    requires text != "" && forall i :: 0 <= i < |text| ==> text[i] != '\r'
    ensures ReadMessage(text, before) == (None, Hangs)
  {
    HeaderEndsIff(text, before);
    forall starts | LineStarts(text, starts) ensures !NoMore(text, starts[|starts| - 1]) {
      if |starts| > 1 && Follows(text, starts[0], starts[0 + 1]) {
        NoLine(text, starts[0], starts[1]);
      }
    }
  }

  lemma NoLine(text: string, b: nat, e: nat)
    requires forall i :: 0 <= i < |text| ==> text[i] != '\r'
    ensures !Follows(text, b, e)
  {
  }

  // ---- The chunk loop on any text ----

  /** A size line that announces data. */
  predicate Announces(size: string) {
    ParseSize(size).Some? && AsInt(ParseSize(size).value) > 0
  }

  function Announced(size: string): nat
    requires Announces(size)
  {
    AsInt(ParseSize(size).value)
  }

  /** From e n characters of data, and after them the first line feed, just before f. */
  predicate DataEnds(text: string, e: nat, n: nat, f: nat) {
    && e + n < f <= |text| && text[f - 1] == '\n'
    && forall i :: e + n <= i < f - 1 ==> text[i] != '\n'
  }

  /** From b a size line with its line end, and from e the data. */
  predicate ChunkAt(text: string, b: nat, cr: nat, e: nat, f: nat) {
    Line(text, b, cr, e) && Announces(text[b..cr]) && DataEnds(text, e, Announced(text[b..cr]), f)
  }

  ghost predicate ChunkFollows(text: string, b: nat, f: nat) {
    exists cr: nat, e: nat :: ChunkAt(text, b, cr, e, f)
  }

  /** Where chunks start, from the beginning of the text. */
  ghost predicate ChunkStarts(text: string, starts: seq<nat>) {
    && starts != [] && starts[0] == 0
    && forall i :: 0 <= i < |starts| - 1 ==> ChunkFollows(text, starts[i], starts[i + 1])
  }

  /** A size line, whole or not, that announces data, but no whole chunk. */
  ghost predicate Unfinished(text: string, b: nat) {
    b <= |text| && Announces(text[b..Find(text, b, '\r')]) && forall f: nat :: !ChunkFollows(text, b, f)
  }

  lemma SizeRead(text: string, b: nat, line: string)
    requires b <= |text|
    ensures ReadLine(On(text[b..]), line).1 == text[b..Find(text, b, '\r')]
  {
    FindShift(text, b);
    PartOf(text, b, Find(text[b..], 0, '\r'));
  }

  lemma FindShift(text: string, b: nat)
    requires b <= |text|
    ensures b + Find(text[b..], 0, '\r') == Find(text, b, '\r')
  {
    var s := text[b..];
    assert forall i :: 0 <= i < |s| ==> s[i] == text[b + i];
  }

  lemma PartOf(text: string, b: nat, n: nat)
    requires b + n <= |text|
    ensures text[b..][..n] == text[b..b + n]
  {
  }

  lemma ChunkStepOn(s: Stream, content: string, line: string, s1: Stream, size: string, s2: Stream, data: string)
    requires ReadLine(s, line) == (s1, size) && Announces(size) && ReadData(s1, Announced(size)) == (s2, data)
    ensures ReadChunks(s, content, line) == if s2.good then ReadChunks(s2, content + data, size) else Hangs
  {
    SizeLineNotEmpty(size);
  }

  lemma QuietStep(s: Stream, content: string, line: string)
    requires !Announces(ReadLine(s, line).1)
    ensures ReadChunks(s, content, line) != Hangs
  {
  }

  lemma DataAt(text: string, e: nat, n: nat, f: nat)
    requires DataEnds(text, e, n, f)
    ensures ReadData(On(text[e..]), n) == (On(text[f..]), text[e..e + n])
  {
    var ignored := text[e + n..f - 1];
    assert forall i :: 0 <= i < |ignored| ==> ignored[i] == text[e + n + i];
    PartOf(text, e, n);
    assert text[e..][n..] == ignored + ['\n'] + text[f..];
    UpTo(ignored, '\n', text[f..], "");
  }

  lemma SizeLineReads(text: string, b: nat, cr: nat, e: nat, f: nat, line: string)
    requires ChunkAt(text, b, cr, e, f)
    ensures ReadLine(On(text[b..]), line) == (On(text[e..]), text[b..cr])
  {
    LineAt(text, b, cr, e, line);
  }

  lemma DataReads(text: string, b: nat, cr: nat, e: nat, f: nat)
    requires ChunkAt(text, b, cr, e, f)
    ensures ReadData(On(text[e..]), Announced(text[b..cr])).0 == On(text[f..])
  {
    DataAt(text, e, Announced(text[b..cr]), f);
  }

  lemma WholeChunk(text: string, b: nat, cr: nat, e: nat, f: nat, content: string, line: string)
    returns (s: Stream, data: string)
    requires ChunkAt(text, b, cr, e, f)
    ensures s == On(text[f..])
    ensures ReadChunks(On(text[b..]), content, line) == ReadChunks(s, content + data, text[b..cr])
  {
    SizeLineReads(text, b, cr, e, f, line);
    DataReads(text, b, cr, e, f);
    s, data := GoodStep(On(text[b..]), content, line, On(text[e..]), text[b..cr]);
  }

  lemma GoodStep(s: Stream, content: string, line: string, s1: Stream, size: string) returns (s2: Stream, data: string)
    requires ReadLine(s, line) == (s1, size) && Announces(size) && ReadData(s1, Announced(size)).0.good
    ensures (s2, data) == ReadData(s1, Announced(size))
    ensures ReadChunks(s, content, line) == ReadChunks(s2, content + data, size)
  {
    s2, data := ReadData(s1, Announced(size)).0, ReadData(s1, Announced(size)).1;
    ChunkStepOn(s, content, line, s1, size, s2, data);
  }

  /** If the stream is still good after the data, the chunk was whole. */
  lemma GoodAfterData(text: string, b: nat, line: string) returns (cr: nat, e: nat, f: nat)
    requires b <= |text| && Announces(text[b..Find(text, b, '\r')])
    requires ReadData(ReadLine(On(text[b..]), line).0, Announced(text[b..Find(text, b, '\r')])).0.good
    ensures ChunkAt(text, b, cr, e, f)
  {
    SizeRead(text, b, line);
    SizeLineNotEmpty(text[b..Find(text, b, '\r')]);
    cr, e := LineFrom(text, b, line);
    LineAt(text, b, cr, e, line);
    f := LineFeedAfter(text, e, Announced(text[b..cr]));
  }

  lemma LineFeedAfter(text: string, e: nat, n: nat) returns (f: nat)
    requires e <= |text| && ReadData(On(text[e..]), n).0.good
    ensures DataEnds(text, e, n, f)
  {
    var after := text[e..][n..];
    assert forall i :: 0 <= i < |after| ==> after[i] == text[e + n + i];
    var k := Find(after, 0, '\n');
    f := e + n + k + 1;
    assert forall i :: e + n <= i < f - 1 ==> text[i] == after[i - e - n];
  }

  lemma UnfinishedHangs(text: string, b: nat, content: string, line: string)
    requires Unfinished(text, b)
    ensures ReadChunks(On(text[b..]), content, line) == Hangs
  {
    SizeRead(text, b, line);
    var s1, size := ReadLine(On(text[b..]), line).0, text[b..Find(text, b, '\r')];
    var after := ReadData(s1, Announced(size));
    if after.0.good {
      var cr, e, f := GoodAfterData(text, b, line);
      assert ChunkFollows(text, b, f);
    }
    ChunkStepOn(On(text[b..]), content, line, s1, size, after.0, after.1);
  }

  lemma {:induction false} HangsFrom(text: string, starts: seq<nat>, i: nat, content: string, line: string)
    requires ChunkStarts(text, starts) && Unfinished(text, starts[|starts| - 1]) && i < |starts| && starts[i] <= |text|
    ensures ReadChunks(On(text[starts[i]..]), content, line) == Hangs
    decreases |starts| - i
  {
    var b := starts[i];
    if i == |starts| - 1 {
      UnfinishedHangs(text, b, content, line);
    } else {
      var f := starts[i + 1];
      assert ChunkFollows(text, b, f);
      var cr: nat, e: nat :| ChunkAt(text, b, cr, e, f);
      var s, data := WholeChunk(text, b, cr, e, f, content, line);
      HangsFrom(text, starts, i + 1, content + data, text[b..cr]);
    }
  }

  lemma OneMoreChunkStart(text: string, before: seq<nat>, f: nat)
    requires ChunkStarts(text, before) && ChunkFollows(text, before[|before| - 1], f)
    ensures ChunkStarts(text, before + [f])
  {
    var more := before + [f];
    forall i | 0 <= i < |more| - 1 ensures ChunkFollows(text, more[i], more[i + 1]) {
      if i < |before| - 1 {
        assert ChunkFollows(text, before[i], before[i + 1]);
      }
    }
  }

  lemma {:induction false} ChunksOf(text: string, before: seq<nat>, b: nat, content: string, line: string)
    returns (starts: seq<nat>)
    requires ChunkStarts(text, before) && before[|before| - 1] == b <= |text|
    requires ReadChunks(On(text[b..]), content, line) == Hangs
    ensures ChunkStarts(text, starts) && Unfinished(text, starts[|starts| - 1])
    decreases |text| - b
  {
    starts := before;
    SizeRead(text, b, line);
    if !Announces(text[b..Find(text, b, '\r')]) {
      QuietStep(On(text[b..]), content, line);
    } else if f: nat :| ChunkFollows(text, b, f) {
      var cr: nat, e: nat :| ChunkAt(text, b, cr, e, f);
      var s, data := WholeChunk(text, b, cr, e, f, content, line);
      OneMoreChunkStart(text, before, f);
      starts := ChunksOf(text, before + [f], f, content + data, text[b..cr]);
    }
  }

  /** For any text: the chunk loop never ends if and only if some chunk start is followed by a size
      line that announces data and by no whole chunk. */
  lemma ChunksHangIff(text: string, content: string, line: string)
    ensures ReadChunks(On(text), content, line) == Hangs <==>
      exists starts :: ChunkStarts(text, starts) && Unfinished(text, starts[|starts| - 1])
  {
    assert text[0..] == text;
    if ReadChunks(On(text), content, line) == Hangs {
      assert ChunkStarts(text, [0]);
      var starts := ChunksOf(text, [0], 0, content, line);
    }
    if exists starts :: ChunkStarts(text, starts) && Unfinished(text, starts[|starts| - 1]) {
      var starts :| ChunkStarts(text, starts) && Unfinished(text, starts[|starts| - 1]);
      HangsFrom(text, starts, 0, content, line);
    }
  }

  // ---- A message cut off in its header ----

  predicate ValidLines(lines: seq<string>) {
    forall i :: 0 <= i < |lines| ==> lines[i] != "" && OneLine(lines[i])
  }

  /** How many whole lines n characters hold, and how many characters follow them. */
  function SplitLines(lines: seq<string>, n: nat): (r: (nat, nat))
    ensures r.0 <= |lines|
    ensures r.0 < |lines| ==> r.1 < |lines[r.0]| + 2
  {
    if lines == [] || n < |lines[0]| + 2 then (0, n) else
    var (whole, left) := SplitLines(lines[1..], n - |lines[0]| - 2);
    (whole + 1, left)
  }

  function Length(lines: seq<string>): nat {
    if lines == [] then 0 else |lines[0]| + 2 + Length(lines[1..])
  }

  /** The n characters are those of the whole lines and what is left. */
  lemma {:induction false} SplitLinesAdds(lines: seq<string>, n: nat)
    ensures var (whole, left) := SplitLines(lines, n); n == Length(lines[..whole]) + left
    decreases |lines|
  {
    if lines != [] && n >= |lines[0]| + 2 {
      var whole := SplitLines(lines[1..], n - |lines[0]| - 2).0;
      SplitLinesAdds(lines[1..], n - |lines[0]| - 2);
      assert lines[..whole + 1][1..] == lines[1..][..whole];
    }
  }

  /** A line of which not all, with its line end, has arrived. */
  lemma CutLine(l: string, n: nat, line: string)
    requires OneLine(l) && 0 < n < |l| + 2
    ensures ReadLine(On((l + CRLF)[..n]), line) == (Stream("", false), l[..if n < |l| then n else |l|])
  {
    var s := (l + CRLF)[..n];
    var k := Find(s, 0, '\r');
    assert forall i :: 0 <= i < n && i < |l| ==> s[i] == l[i];
    if n <= |l| {
      assert k == n && s == l[..n];
    } else {
      assert s[|l|] == '\r' && k == |l|;
      assert s[..|l|] == l == l[..|l|] && s[|l| + 1..] == "";
      assert Getline(On(""), '\n', "") == (Stream("", false), "");
    }
  }

  lemma NothingRead(line: string)
    ensures ReadLine(On(""), line) == (Stream("", false), "")
  {
  }

  /** Cut in the header, at a line start or in the empty line the loop ends with a stream that is
      no longer good; anywhere else it never ends. */
  lemma {:induction false} HeadCut(h: Head, lines: seq<string>, body: string, n: nat, line: string)
    requires ValidLines(lines) && n < |EncodeLines(lines, "")|
    ensures n <= |EncodeLines(lines, body)|
    ensures var (whole, left) := SplitLines(lines, n);
      ReadHead(On(EncodeLines(lines, body)[..n]), h, line) ==
        if left == 0 || whole == |lines| then HeadEnd(AddLines(h, lines[..whole] + [""]), Stream("", false))
        else HeadHangs
    decreases |lines|
  {
    if lines == [] {
      HeadCutAtEnd(h, body, n, line);
    } else if n < |lines[0]| + 2 {
      CutBefore(lines[0] + CRLF, EncodeLines(lines[1..], body), n);
      HeadCutInLine(h, lines[0], n, line);
      assert lines[..0] + [""] == [""];
    } else {
      var l, m, rest := lines[0], n - |lines[0]| - 2, lines[1..];
      HeadCut(AddLine(h, l), rest, body, m, l);
      CutAfter(l + CRLF, EncodeLines(rest, body), n);
      HeadStep(h, l, EncodeLines(rest, body)[..m], line);
      FrontLine(h, lines, SplitLines(rest, m).0);
    }
  }

  lemma CutBefore(front: string, rest: string, n: nat)
    requires n <= |front|
    ensures (front + rest)[..n] == front[..n]
  {
  }

  lemma CutAfter(front: string, rest: string, n: nat)
    requires |front| <= n <= |front + rest|
    ensures (front + rest)[..n] == front + rest[..n - |front|]
  {
  }

  lemma FrontLine(h: Head, lines: seq<string>, whole: nat)
    requires lines != [] && whole <= |lines[1..]|
    ensures AddLines(AddLine(h, lines[0]), lines[1..][..whole] + [""]) == AddLines(h, lines[..whole + 1] + [""])
  {
    var all := lines[..whole + 1] + [""];
    AddLinesFront(h, all);
    assert all[1..] == lines[1..][..whole] + [""];
  }

  lemma OneEmptyLine(h: Head)
    ensures AddLines(h, [""]) == AddLine(h, "")
  {
    assert [""] == [] + [""];
    OneMoreLine(h, [], "");
  }

  lemma HeadCutAtEnd(h: Head, body: string, n: nat, line: string)
    requires n < 2
    ensures ReadHead(On((CRLF + body)[..n]), h, line) == HeadEnd(AddLines(h, [] + [""]), Stream("", false))
  {
    OneEmptyLine(h);
    assert [] + [""] == [""];
    if n == 0 {
      NothingRead(line);
    } else {
      assert (CRLF + body)[..n] == ("" + CRLF)[..n];
      CutLine("", n, line);
    }
  }

  lemma HeadCutInLine(h: Head, l: string, n: nat, line: string)
    requires l != "" && OneLine(l) && n < |l| + 2
    ensures ReadHead(On((l + CRLF)[..n]), h, line) ==
      if n == 0 then HeadEnd(AddLines(h, [""]), Stream("", false)) else HeadHangs
  {
    if n == 0 {
      OneEmptyLine(h);
      NothingRead(line);
    } else {
      CutLine(l, n, line);
    }
  }

  // ---- A body cut off ----

  /** A message's chunked body, and what ends it. */
  predicate ValidBody(chunks: seq<Chunk>, last: string) {
    && (forall i :: 0 <= i < |chunks| ==> ValidChunk(chunks[i]))
    && OneLine(last) && ParseSize(last) == Some(0)
  }

  function Item(c: Chunk): string {
    c.sizeLine + CRLF + c.data + CRLF
  }

  function Whole(c: Chunk): nat {
    |Item(c)|
  }

  function SplitChunks(chunks: seq<Chunk>, n: nat): (r: (nat, nat))
    ensures r.0 <= |chunks|
    ensures r.0 < |chunks| ==> r.1 < Whole(chunks[r.0])
  {
    if chunks == [] || n < Whole(chunks[0]) then (0, n) else
    var (whole, left) := SplitChunks(chunks[1..], n - Whole(chunks[0]));
    (whole + 1, left)
  }

  /** What becomes of a body that ends left characters into an item with the given size line, when
      done has been read; more if the item is a chunk, not the last line. */
  function CutIn(done: string, sizeLine: string, left: nat, more: bool): Outcome {
    if left == 0 then Finished(done)
    else if left >= |sizeLine| then (if more then Hangs else Finished(done))
    else
      match ParseSize(sizeLine[..left])
      case None => Throws
      case Some(v) => if AsInt(v) < 0 then Throws else if AsInt(v) == 0 then Finished(done) else Hangs
  }

  lemma BadStream(n: nat)
    ensures !ReadData(Stream("", false), n).0.good
  {
  }

  /** A size line of which only the front has arrived. */
  lemma CutSize(l: string, n: nat, content: string, line: string, more: bool)
    requires OneLine(l) && 0 < n < |l| + 2
    requires ParseSize(l).Some? && 0 <= ParseSize(l).value < HALF && (more <==> ParseSize(l).value > 0)
    ensures ReadChunks(On((l + CRLF)[..n]), content, line) == CutIn(content, l, n, more)
  {
    var size := l[..if n < |l| then n else |l|];
    CutLine(l, n, line);
    SizeLineNotEmpty(l);
    assert l[..|l|] == l;
    SmallSize(ParseSize(l).value);
    if ParseSize(size).Some? && AsInt(ParseSize(size).value) > 0 {
      BadStream(AsInt(ParseSize(size).value));
    }
  }

  /** The data of a chunk of which not all, with its line end, has arrived. */
  lemma CutData(data: string, n: nat)
    requires n < |data| + 2
    ensures !ReadData(On((data + CRLF)[..n]), |data|).0.good
  {
    var s := (data + CRLF)[..n];
    if n >= |data| {
      var rest := s[|data|..];
      assert forall i :: 0 <= i < |rest| ==> rest[i] == '\r';
    }
  }

  lemma CutChunk(c: Chunk, n: nat, content: string, line: string)
    requires ValidChunk(c) && n < Whole(c)
    ensures ReadChunks(On(Item(c)[..n]), content, line) == CutIn(content, c.sizeLine, n, true)
  {
    var l, all := c.sizeLine, Item(c);
    if n == 0 {
      NothingRead(line);
    } else if n < |l| + 2 {
      assert all[..n] == (l + CRLF)[..n];
      CutSize(l, n, content, line, true);
    } else {
      var m := n - |l| - 2;
      var after := (c.data + CRLF)[..m];
      assert all[..n] == l + CRLF + after;
      LineRead(l, after, line);
      CutData(c.data, m);
      var cut := ReadData(On(after), |c.data|);
      ChunkStep(On(l + CRLF + after), content, line, On(after), l, |c.data|, cut.0, cut.1);
    }
  }

  lemma CutEnd(last: string, trailer: string, n: nat, content: string, line: string)
    requires OneLine(last) && ParseSize(last) == Some(0) && n <= |last + CRLF + trailer|
    ensures ReadChunks(On((last + CRLF + trailer)[..n]), content, line) == CutIn(content, last, n, false)
  {
    var all := last + CRLF + trailer;
    if n == 0 {
      NothingRead(line);
    } else if n < |last| + 2 {
      assert all[..n] == (last + CRLF)[..n];
      CutSize(last, n, content, line, false);
    } else {
      var after := trailer[..n - |last| - 2];
      assert all[..n] == last + CRLF + after;
      LineRead(last, after, line);
      LastChunk(On(all[..n]), content, line, On(after), last);
    }
  }

  /** What becomes of the first n characters of a body, when content has been read before. */
  function BodyCutOutcome(content: string, chunks: seq<Chunk>, last: string, n: nat): Outcome {
    var (whole, left) := SplitChunks(chunks, n);
    if whole < |chunks| then CutIn(content + Data(chunks[..whole]), chunks[whole].sizeLine, left, true)
    else CutIn(content + Data(chunks[..whole]), last, left, false)
  }

  lemma {:induction false} CutsAfterWhole(chunks: seq<Chunk>, end: string, n: nat)
    requires n <= |EncodeChunks(chunks, end)|
    ensures var (whole, left) := SplitChunks(chunks, n);
      whole == |chunks| ==> left <= |end| && EncodeChunks(chunks, end)[..n] == EncodeChunks(chunks, end[..left])
    decreases |chunks|
  {
    if chunks != [] && n >= Whole(chunks[0]) {
      var c, rest := chunks[0], chunks[1..];
      CutsAfterWhole(rest, end, n - Whole(c));
      CutAfter(Item(c), EncodeChunks(rest, end), n);
    }
  }

  lemma {:induction false} CutsInChunk(chunks: seq<Chunk>, end: string, n: nat)
    requires n <= |EncodeChunks(chunks, end)|
    ensures var (whole, left) := SplitChunks(chunks, n);
      whole < |chunks| ==> EncodeChunks(chunks, end)[..n] == EncodeChunks(chunks[..whole], Item(chunks[whole])[..left])
    decreases |chunks|
  {
    if chunks != [] {
      var c, rest := chunks[0], chunks[1..];
      if n < Whole(c) {
        CutBefore(Item(c), EncodeChunks(rest, end), n);
      } else {
        CutsInChunk(rest, end, n - Whole(c));
        CutAfter(Item(c), EncodeChunks(rest, end), n);
        OneMoreChunk(chunks, SplitChunks(rest, n - Whole(c)).0);
      }
    }
  }

  lemma OneMoreChunk(chunks: seq<Chunk>, whole: nat)
    requires chunks != [] && whole <= |chunks[1..]|
    ensures chunks[..whole + 1] == [chunks[0]] + chunks[1..][..whole]
    ensures chunks[..whole + 1][1..] == chunks[1..][..whole]
  {
  }

  lemma BodyCut(chunks: seq<Chunk>, last: string, trailer: string, n: nat, content: string, line: string)
    requires ValidBody(chunks, last) && n <= |EncodeChunks(chunks, last + CRLF + trailer)|
    ensures ReadChunks(On(EncodeChunks(chunks, last + CRLF + trailer)[..n]), content, line) ==
      BodyCutOutcome(content, chunks, last, n)
  {
    var end := last + CRLF + trailer;
    var (whole, left) := SplitChunks(chunks, n);
    var front := chunks[..whole];
    if whole == |chunks| {
      CutsAfterWhole(chunks, end, n);
      assert front == chunks;
      var next := ChunksSkip(chunks, end[..left], content, line);
      CutEnd(last, trailer, left, content + Data(chunks), next);
    } else {
      var c := chunks[whole];
      CutsInChunk(chunks, end, n);
      var next := ChunksSkip(front, Item(c)[..left], content, line);
      CutChunk(c, left, content + Data(front), next);
    }
  }

  // ---- Every cut of a message ----

  function Message(lines: seq<string>, chunks: seq<Chunk>, last: string, trailer: string): string {
    EncodeLines(lines, EncodeChunks(chunks, last + CRLF + trailer))
  }

  function HeadLength(lines: seq<string>): nat {
    |EncodeLines(lines, "")|
  }

  function CutOutcome(lines: seq<string>, chunks: seq<Chunk>, last: string, n: nat): Outcome {
    if n < HeadLength(lines) then HeadCutOutcome(lines, n) else BodyCutOutcome("", chunks, last, n - HeadLength(lines))
  }

  function HeadCutOutcome(lines: seq<string>, n: nat): Outcome {
    var (whole, left) := SplitLines(lines, n);
    if left > 0 && whole < |lines| then Hangs
    else if HasChunkEncoding(AddLines(NEW, lines[..whole] + [""])) then Finished("") else Undefined
  }

  lemma {:induction false} HeadThenBody(lines: seq<string>, body: string, n: nat)
    requires HeadLength(lines) <= n <= |EncodeLines(lines, body)|
    ensures |EncodeLines(lines, body)| == HeadLength(lines) + |body|
    ensures EncodeLines(lines, body)[..n] == EncodeLines(lines, body[..n - HeadLength(lines)])
    decreases |lines|
  {
    if lines == [] {
      CutAfter(CRLF, body, n);
    } else {
      var rest, m := lines[1..], n - |lines[0]| - 2;
      HeadThenBody(rest, body, m);
      CutAfter(lines[0] + CRLF, EncodeLines(rest, body), n);
    }
  }

  /** For every chunked message and every place to cut it: what reading the part comes to. */
  lemma MessageCut(lines: seq<string>, chunks: seq<Chunk>, last: string, trailer: string, n: nat)
    requires ValidLines(lines) && ValidBody(chunks, last) && HasChunkEncoding(AddLines(NEW, lines + [""]))
    requires n <= |Message(lines, chunks, last, trailer)|
    ensures ReadMessage(Message(lines, chunks, last, trailer)[..n], NEW).1 == CutOutcome(lines, chunks, last, n)
  {
    var body := EncodeChunks(chunks, last + CRLF + trailer);
    if n < HeadLength(lines) {
      CutInHead(lines, body, n);
    } else {
      CutInBody(lines, chunks, last, trailer, n);
    }
  }

  lemma CutInHead(lines: seq<string>, body: string, n: nat)
    requires ValidLines(lines) && n < HeadLength(lines)
    ensures n <= |EncodeLines(lines, body)|
    ensures ReadMessage(EncodeLines(lines, body)[..n], NEW).1 == HeadCutOutcome(lines, n)
  {
    HeadCut(NEW, lines, body, n, "");
    var h := AddLines(NEW, lines[..SplitLines(lines, n).0] + [""]);
    assert ReadChunks(Stream("", false), "", "") == Finished("");
  }

  lemma CutInBody(lines: seq<string>, chunks: seq<Chunk>, last: string, trailer: string, n: nat)
    requires ValidLines(lines) && ValidBody(chunks, last) && HasChunkEncoding(AddLines(NEW, lines + [""]))
    requires HeadLength(lines) <= n <= |Message(lines, chunks, last, trailer)|
    ensures ReadMessage(Message(lines, chunks, last, trailer)[..n], NEW).1 ==
      BodyCutOutcome("", chunks, last, n - HeadLength(lines))
  {
    var body, m := EncodeChunks(chunks, last + CRLF + trailer), n - HeadLength(lines);
    HeadThenBody(lines, body, n);
    HeadRead(NEW, lines, body[..m], "");
    BodyCut(chunks, last, trailer, m, "", "");
  }

  // ---- Messages with the size lines a server writes ----

  predicate Standard(chunks: seq<Chunk>) {
    forall i :: 0 <= i < |chunks| ==> 0 < |chunks[i].data| < HALF && chunks[i].sizeLine == HexOf(|chunks[i].data|)
  }

  const END: string := "0"

  lemma StandardIsValid(chunks: seq<Chunk>)
    requires Standard(chunks)
    ensures ValidBody(chunks, END)
  {
    forall i | 0 <= i < |chunks| ensures ValidChunk(chunks[i]) {
      SizeRoundTrip(|chunks[i].data|);
    }
    SizeRoundTrip(0);
    assert HexOf(0) == END;
  }

  /** The front of a size line is the size line of something smaller, but not of zero. */
  lemma {:induction false} FrontOfSize(n: nat, j: nat)
    requires n < HALF && 0 < j < |HexOf(n)|
    ensures ParseSize(HexOf(n)[..j]).Some? && 0 < ParseSize(HexOf(n)[..j]).value < HALF
  {
    var most := HexOf(n / 16);
    assert HexOf(n)[..j] == most[..j];
    if j == |most| {
      assert most[..j] == most;
      SizeRoundTrip(n / 16);
    } else {
      FrontOfSize(n / 16, j);
    }
  }

  lemma {:induction false} LessData(chunks: seq<Chunk>, k: nat)
    requires k < |chunks| && forall i :: 0 <= i < |chunks| ==> chunks[i].data != ""
    ensures |Data(chunks[..k])| < |Data(chunks)|
  {
    if k > 0 {
      LessData(chunks[1..], k - 1);
      assert chunks[..k][1..] == chunks[1..][..k - 1];
    }
  }

  /** A standard chunk cut in its size line, its data or its line end is waited for for ever. */
  lemma StandardCutIn(done: string, n: nat, left: nat)
    requires 0 < n < HALF
    ensures CutIn(done, HexOf(n), left, true) == if left == 0 then Finished(done) else Hangs
  {
    if 0 < left < |HexOf(n)| {
      FrontOfSize(n, left);
      SmallSize(ParseSize(HexOf(n)[..left]).value);
    }
  }

  /** A standard message whose header is whole, cut anywhere after it: reading it never ends if and
      only if the cut is inside a chunk; it ends with everything if and only if all the chunks are
      there, whether the end of the message is or not; and it ends with less, and no error, if and
      only if the cut is exactly between two chunks or before the first. */
  lemma StandardCut(lines: seq<string>, chunks: seq<Chunk>, trailer: string, n: nat)
    requires ValidLines(lines) && Standard(chunks) && HasChunkEncoding(AddLines(NEW, lines + [""]))
    requires HeadLength(lines) <= n <= |Message(lines, chunks, END, trailer)|
    ensures var (whole, left) := SplitChunks(chunks, n - HeadLength(lines));
      var outcome := ReadMessage(Message(lines, chunks, END, trailer)[..n], NEW).1;
      && (outcome == Hangs <==> whole < |chunks| && left > 0)
      && (outcome == Finished(Data(chunks)) <==> whole == |chunks|)
      && (outcome.Finished? && outcome.content != Data(chunks) <==> whole < |chunks| && left == 0)
      && (outcome.Finished? ==> outcome.content == Data(chunks[..whole]))
  {
    var (whole, left) := SplitChunks(chunks, n - HeadLength(lines));
    var done := "" + Data(chunks[..whole]);
    StandardIsValid(chunks);
    MessageCut(lines, chunks, END, trailer, n);
    assert done == Data(chunks[..whole]);
    if whole < |chunks| {
      StandardCutIn(done, |chunks[whole].data|, left);
      LessData(chunks, whole);
    } else {
      assert chunks[..whole] == chunks;
    }
  }

  /** Cut in its header, it never ends if and only if the cut is inside a line that is not empty;
      cut elsewhere, it ends with nothing, or with the copy from before the message if the field
      that announces the chunks has not arrived. */
  lemma StandardHeadCut(lines: seq<string>, chunks: seq<Chunk>, trailer: string, n: nat)
    requires ValidLines(lines) && Standard(chunks) && HasChunkEncoding(AddLines(NEW, lines + [""]))
    requires n < HeadLength(lines) && n <= |Message(lines, chunks, END, trailer)|
    ensures var (whole, left) := SplitLines(lines, n);
      var outcome := ReadMessage(Message(lines, chunks, END, trailer)[..n], NEW).1;
      && (outcome == Hangs <==> whole < |lines| && left > 0)
      && (outcome == Undefined <==>
            (whole == |lines| || left == 0) && !HasChunkEncoding(AddLines(NEW, lines[..whole] + [""])))
      && (outcome.Finished? ==> outcome.content == "")
      && outcome != Throws
  {
    StandardIsValid(chunks);
    MessageCut(lines, chunks, END, trailer, n);
  }
}
