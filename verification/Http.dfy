/** HttpResponse::read: a header read line by line from a string stream, then a body that is
    either the rest of the stream or chunked (section 4.1 of RFC 7230). */
module Http {
  import opened Wrappers

  // ---- The string stream ----

  /** What is still to be read, and whether no read has met the end of the data so far; once
      false, good stays so. */
  datatype Stream = Stream(rest: string, good: bool)

  function Find(data: string, from: nat, delimiter: char): (k: nat)
    requires from <= |data|
    ensures from <= k <= |data| && (k < |data| ==> data[k] == delimiter)
    ensures forall i :: from <= i < k ==> data[i] != delimiter
    decreases |data| - from
  {
    if from == |data| || data[from] == delimiter then from else Find(data, from + 1, delimiter)
  }

  /** std::getline: on a stream that is no longer good the line is left as it was. */
  function Getline(s: Stream, delimiter: char, line: string): (r: (Stream, string))
    ensures |r.0.rest| <= |s.rest| && (r.0.good ==> s.good && |r.0.rest| < |s.rest|)
  {
    if !s.good then (s, line) else
    var k := Find(s.rest, 0, delimiter);
    if k < |s.rest| then (Stream(s.rest[k + 1..], true), s.rest[..k]) else (Stream("", false), s.rest)
  }

  /** istream::read of n characters into a string resized with zeros. */
  function ReadInto(s: Stream, n: nat): (r: (Stream, string))
    ensures |r.0.rest| <= |s.rest| && (r.0.good ==> s.good)
    ensures |r.1| == n
  {
    if !s.good then (s, seq(n, _ => '\0'))
    else if n <= |s.rest| then (Stream(s.rest[n..], true), s.rest[..n])
    else (Stream("", false), s.rest + seq(n - |s.rest|, _ => '\0'))
  }

  /** A line up to a carriage return, and whatever follows up to the line feed thrown away. */
  function ReadLine(s: Stream, line: string): (r: (Stream, string))
    ensures |r.0.rest| <= |s.rest| && (r.0.good ==> |r.0.rest| < |s.rest|)
  {
    var (s1, next) := Getline(s, '\r', line);
    (Getline(s1, '\n', "").0, next)
  }

  /** A chunk's data, and whatever follows up to the line feed thrown away. */
  function ReadData(s: Stream, n: nat): (r: (Stream, string))
    ensures |r.0.rest| <= |s.rest| && (r.0.good ==> |r.0.rest| < |s.rest|)
  {
    var (s1, data) := ReadInto(s, n);
    (Getline(s1, '\n', "").0, data)
  }

  // ---- Header lines ----

  datatype Head = Head(verb: string, url: string, version: string, headers: map<string, string>)

  predicate IsSpace(c: char) {
    c == ' ' || '\t' <= c <= '\r'
  }

  function TrimLeft(s: string): string {
    if s != "" && IsSpace(s[0]) then TrimLeft(s[1..]) else s
  }

  function TrimRight(s: string): string {
    if s != "" && IsSpace(s[|s| - 1]) then TrimRight(s[..|s| - 1]) else s
  }

  function Word(s: string): string {
    if s == "" || IsSpace(s[0]) then "" else [s[0]] + Word(s[1..])
  }

  function Lower(s: string): string {
    seq(|s|, i requires 0 <= i < |s| => if 'A' <= s[i] <= 'Z' then (s[i] as int + 32) as char else s[i])
  }

  /** The next word of the line, or the old value if there is none; and what is left. */
  function NextWord(rest: string, value: string): (string, string) {
    var w := Word(TrimLeft(rest));
    var trimmed := TrimLeft(rest);
    if w == "" then ("", value) else (if |w| <= |trimmed| then trimmed[|w|..] else "", w)
  }

  function AddLine(h: Head, line: string): Head {
    if h.verb == "" then
      var (a, verb) := NextWord(line, h.verb);
      var (b, url) := NextWord(a, h.url);
      var (c, version) := NextWord(b, h.version);
      h.(verb := verb, url := url, version := version)
    else
      var colon := Find(line, 0, ':');
      var value := if colon < |line| then line[colon + 1..Find(line, colon + 1, '\n')] else "";
      h.(headers := h.headers[Lower(line[..colon]) := TrimRight(TrimLeft(value))])
  }

  function AddLines(h: Head, lines: seq<string>): Head {
    if lines == [] then h else AddLine(AddLines(h, lines[..|lines| - 1]), lines[|lines| - 1])
  }

  predicate HasChunkEncoding(h: Head) {
    "transfer-encoding" in h.headers && h.headers["transfer-encoding"] == "chunked"
  }

  // ---- Chunk sizes ----

  function HexDigit(c: char): int {
    if '0' <= c <= '9' then c as int - '0' as int
    else if 'a' <= c <= 'f' then c as int - 'a' as int + 10
    else if 'A' <= c <= 'F' then c as int - 'A' as int + 10
    else -1
  }

  predicate StartsHex(s: string) {
    s != "" && HexDigit(s[0]) >= 0
  }

  /** The value of the hexadecimal digits at the start of s, continuing from value. */
  function HexRun(s: string, value: nat): nat {
    if StartsHex(s) then HexRun(s[1..], 16 * value + HexDigit(s[0])) else value
  }

  const WORD: nat := 0x1_0000_0000_0000_0000
  const HALF: nat := 0x8000_0000

  /** std::stoul in base 16; None where it throws. */
  function ParseSize(line: string): Option<nat> {
    var s := TrimLeft(line);
    var negative := s != "" && s[0] == '-';
    var t := if negative || (s != "" && s[0] == '+') then s[1..] else s;
    var digits := if |t| > 2 && t[0] == '0' && (t[1] == 'x' || t[1] == 'X') && HexDigit(t[2]) >= 0 then t[2..] else t;
    if !StartsHex(digits) then None else
    var value := HexRun(digits, 0);
    if value >= WORD then None
    else Some(if negative && value > 0 then WORD - value else value)
  }

  /** Assigned to an int. */
  function AsInt(n: nat): int {
    var low := n % (2 * HALF);
    if low < HALF then low else low - 2 * HALF
  }

  // ---- What read does ----

  /** Hangs is the loop that repeats the last line for ever once the stream has ended; Undefined
      is the copy from before the start of the message when the stream has ended in the header. */
  datatype Outcome = Finished(content: string) | Hangs | Throws | Undefined

  datatype HeadEnd = HeadEnd(head: Head, rest: Stream) | HeadHangs

  function ReadHead(s: Stream, h: Head, line: string): HeadEnd
    decreases |s.rest|
  {
    var (s1, next) := ReadLine(s, line);
    var added := AddLine(h, next);
    if next == "" then HeadEnd(added, s1)
    else if s1.good then ReadHead(s1, added, next)
    else HeadHangs
  }

  function ReadChunks(s: Stream, content: string, line: string): Outcome
    decreases |s.rest|
  {
    var (s1, size) := ReadLine(s, line);
    if size == "" then Finished(content) else
    var parsed := ParseSize(size);
    if parsed == None || AsInt(parsed.value) < 0 then Throws else
    var len := AsInt(parsed.value);
    if len == 0 then Finished(content) else
    var (s2, chunk) := ReadData(s1, len);
    if s2.good then ReadChunks(s2, content + chunk, size) else Hangs
  }

  /** What reading a whole message comes to, with the header it leaves. */
  function ReadMessage(everything: string, before: Head): (Option<Head>, Outcome) {
    match ReadHead(Stream(everything, true), before.(headers := map[]), "")
    case HeadHangs => (None, Hangs)
    case HeadEnd(h, s) =>
      (Some(h), if HasChunkEncoding(h) then ReadChunks(s, "", "") else if s.good then Finished(s.rest) else Undefined)
  }

  class HttpResponse {
    var head: Head
    var content: string

    constructor ()
      ensures head == Head("", "", "", map[]) && content == ""
    {
      head, content := Head("", "", "", map[]), "";
    }

    method Read(everything: string) returns (outcome: Outcome)
      modifies this
      ensures var (h, end) := ReadMessage(everything, old(head));
        outcome == end && (h.Some? ==> head == h.value) && (outcome.Finished? ==> content == outcome.content)
    {
      head, content := head.(headers := map[]), "";
      var s, hangs := ReadHeader(Stream(everything, true));
      if hangs {
        outcome := Hangs;
      } else if HasChunkEncoding(head) {
        outcome := ReadBody(s);
      } else if s.good {
        content := s.rest;
        outcome := Finished(content);
      } else {
        outcome := Undefined;
      }
    }

    method ReadHeader(start: Stream) returns (s: Stream, hangs: bool)
      modifies this`head
      ensures ReadHead(start, old(head), "") == if hangs then HeadHangs else HeadEnd(head, s)
    {
      s, hangs := start, false;
      var line := "";
      while true
        invariant !hangs && ReadHead(s, head, line) == ReadHead(start, old(head), "")
        decreases |s.rest|
      {
        var r := ReadLine(s, line);
        s, line := r.0, r.1;
        head := AddLine(head, line);
        if line == "" {
          break;
        }
        if !s.good {
          hangs := true;
          break;
        }
      }
    }

    method ReadBody(start: Stream) returns (outcome: Outcome)
      requires content == ""
      modifies this`content
      ensures outcome == ReadChunks(start, "", "")
      ensures outcome.Finished? ==> content == outcome.content
    {
      var s, line := start, "";
      while true
        invariant ReadChunks(s, content, line) == ReadChunks(start, "", "")
        decreases |s.rest|
      {
        var r := ReadLine(s, line);
        s, line := r.0, r.1;
        if line == "" {
          return Finished(content);
        }
        var parsed := ParseSize(line);
        if parsed == None {
          return Throws;
        }
        var len := AsInt(parsed.value);
        if len < 0 {
          return Throws;
        }
        if len == 0 {
          return Finished(content);
        }
        var chunk := ReadData(s, len);
        if !chunk.0.good {
          return Hangs;
        }
        content := content + chunk.1;
        s := chunk.0;
      }
    }
  }

  // ---- Decoding what a server encodes ----

  const CRLF: string := "\r\n"

  predicate OneLine(line: string) {
    forall i :: 0 <= i < |line| ==> line[i] != '\r'
  }

  /** A chunk as sent: its size line, with any leading zeros or extension, and its data. */
  datatype Chunk = Chunk(sizeLine: string, data: string)

  predicate ValidChunk(c: Chunk) {
    OneLine(c.sizeLine) && 0 < |c.data| < HALF && ParseSize(c.sizeLine) == Some(|c.data|)
  }

  function EncodeChunks(chunks: seq<Chunk>, end: string): string {
    if chunks == [] then end else
    chunks[0].sizeLine + CRLF + chunks[0].data + CRLF + EncodeChunks(chunks[1..], end)
  }

  function Data(chunks: seq<Chunk>): string {
    if chunks == [] then "" else chunks[0].data + Data(chunks[1..])
  }

  function EncodeLines(lines: seq<string>, body: string): string {
    if lines == [] then CRLF + body else lines[0] + CRLF + EncodeLines(lines[1..], body)
  }

  /** A stream that is still good and holds rest. */
  function On(rest: string): Stream {
    Stream(rest, true)
  }

  /** Up to the first delimiter. */
  lemma UpTo(line: string, delimiter: char, rest: string, before: string)
    requires forall i :: 0 <= i < |line| ==> line[i] != delimiter
    ensures Getline(On(line + [delimiter] + rest), delimiter, before) == (On(rest), line)
  {
    var all := line + [delimiter] + rest;
    var k := Find(all, 0, delimiter);
    assert all[|line|] == delimiter;
    assert forall i :: 0 <= i < |line| ==> all[i] == line[i];
    assert k == |line|;
    assert all[k + 1..] == rest && all[..k] == line;
  }

  lemma LineRead(line: string, rest: string, before: string)
    requires OneLine(line)
    ensures ReadLine(On(line + CRLF + rest), before) == (On(rest), line)
  {
    assert line + CRLF + rest == line + ['\r'] + (['\n'] + rest);
    UpTo(line, '\r', ['\n'] + rest, before);
    assert ['\n'] + rest == [] + ['\n'] + rest;
    UpTo([], '\n', rest, "");
  }

  /** The data of a chunk and the line end after it. */
  lemma DataRead(data: string, rest: string)
    ensures ReadData(On(data + CRLF + rest), |data|) == (On(rest), data)
  {
    var all := data + CRLF + rest;
    assert all[|data|..] == ['\r'] + ['\n'] + rest && all[..|data|] == data;
    UpTo(['\r'], '\n', rest, "");
  }

  lemma OneMoreLine(h: Head, lines: seq<string>, line: string)
    ensures AddLines(h, lines + [line]) == AddLine(AddLines(h, lines), line)
  {
    assert (lines + [line])[..|lines|] == lines;
  }

  lemma {:induction false} AddLinesFront(h: Head, lines: seq<string>)
    requires lines != []
    ensures AddLines(h, lines) == AddLines(AddLine(h, lines[0]), lines[1..])
  {
    var most := lines[..|lines| - 1];
    if |lines| == 1 {
      assert most == [] && lines[1..] == [];
    } else {
      var rest := lines[1..];
      AddLinesFront(h, most);
      assert most[1..] == rest[..|rest| - 1] && rest[|rest| - 1] == lines[|lines| - 1];
    }
  }

  /** A line that is not empty, and the empty one that ends the header. */
  lemma HeadStep(h: Head, next: string, rest: string, line: string)
    requires OneLine(next)
    ensures ReadHead(On(next + CRLF + rest), h, line) ==
      if next == "" then HeadEnd(AddLine(h, next), On(rest)) else ReadHead(On(rest), AddLine(h, next), next)
  {
    LineRead(next, rest, line);
  }

  lemma {:induction false} HeadRead(h: Head, lines: seq<string>, body: string, line: string)
    requires forall i :: 0 <= i < |lines| ==> lines[i] != "" && OneLine(lines[i])
    ensures ReadHead(On(EncodeLines(lines, body)), h, line) == HeadEnd(AddLines(h, lines + [""]), On(body))
    decreases |lines|
  {
    OneMoreLine(h, lines, "");
    if lines == [] {
      assert CRLF + body == "" + CRLF + body;
      HeadStep(h, "", body, line);
    } else {
      HeadStep(h, lines[0], EncodeLines(lines[1..], body), line);
      HeadRead(AddLine(h, lines[0]), lines[1..], body, lines[0]);
      OneMoreLine(AddLine(h, lines[0]), lines[1..], "");
      AddLinesFront(h, lines);
    }
  }

  // ---- Header fields ----

  predicate OneWord(w: string) {
    w != "" && forall i :: 0 <= i < |w| ==> !IsSpace(w[i])
  }

  predicate Trimmed(s: string) {
    s != "" ==> !IsSpace(s[0]) && !IsSpace(s[|s| - 1])
  }

  lemma {:induction false} WordRead(w: string, rest: string)
    requires OneWord(w) && (rest != "" ==> IsSpace(rest[0]))
    ensures Word(w + rest) == w
    decreases |w|
  {
    var s := w + rest;
    assert s[0] == w[0] && s[1..] == w[1..] + rest;
    if |w| > 1 {
      WordRead(w[1..], rest);
    } else {
      assert w[1..] + rest == rest;
    }
  }

  lemma NextWordRead(w: string, rest: string, value: string)
    requires OneWord(w) && (rest != "" ==> IsSpace(rest[0]))
    ensures NextWord(w + rest, value) == (rest, w)
  {
    assert (w + rest)[0] == w[0];
    WordRead(w, rest);
    assert (w + rest)[|w|..] == rest;
  }

  lemma AfterSpace(w: string, rest: string, value: string)
    requires OneWord(w) && (rest != "" ==> IsSpace(rest[0]))
    ensures NextWord(" " + (w + rest), value) == (rest, w)
  {
    assert (" " + (w + rest))[1..] == w + rest && (w + rest)[0] == w[0];
    NextWordRead(w, rest, value);
  }

  /** The first line's three words. */
  lemma FirstLineRead(h: Head, a: string, b: string, c: string)
    requires h.verb == "" && OneWord(a) && OneWord(b) && OneWord(c)
    ensures AddLine(h, a + " " + b + " " + c) == h.(verb := a, url := b, version := c)
  {
    assert a + " " + b + " " + c == a + (" " + (b + (" " + (c + ""))));
    AfterSpace(c, "", h.version);
    AfterSpace(b, " " + (c + ""), h.url);
    NextWordRead(a, " " + (b + (" " + (c + ""))), h.verb);
  }

  lemma NoWord(space: string, value: string)
    requires AllSpace(space)
    ensures NextWord(space, value) == ("", value)
  {
    assert space == space + "";
    SpaceBefore(space, "");
  }

  /** A first line of fewer words leaves the others as they were. */
  lemma ShortFirstLine(h: Head, a: string, b: string, space: string)
    requires h.verb == "" && OneWord(a) && OneWord(b) && AllSpace(space)
    ensures AddLine(h, space) == h
    ensures AddLine(h, a + space) == h.(verb := a)
    ensures AddLine(h, a + (" " + (b + space))) == h.(verb := a, url := b)
  {
    NoWord(space, h.verb);
    NoWord(space, h.url);
    NoWord(space, h.version);
    NoWord("", h.url);
    NoWord("", h.version);
    NextWordRead(a, space, h.verb);
    NextWordRead(a, " " + (b + space), h.verb);
    AfterSpace(b, space, h.url);
  }

  predicate AllSpace(s: string) {
    forall i :: 0 <= i < |s| ==> IsSpace(s[i])
  }

  lemma {:induction false} SpaceBefore(before: string, s: string)
    requires AllSpace(before) && (s != "" ==> !IsSpace(s[0]))
    ensures TrimLeft(before + s) == s
    decreases |before|
  {
    if before == "" {
      assert before + s == s;
    } else {
      assert (before + s)[1..] == before[1..] + s;
      SpaceBefore(before[1..], s);
    }
  }

  lemma {:induction false} SpaceAfter(s: string, after: string)
    requires AllSpace(after) && (s != "" ==> !IsSpace(s[|s| - 1]))
    ensures TrimRight(s + after) == s
    decreases |after|
  {
    if after == "" {
      assert s + after == s;
    } else {
      var most := after[..|after| - 1];
      assert (s + after)[..|s + after| - 1] == s + most;
      SpaceAfter(s, most);
    }
  }

  lemma TrimmedOf(before: string, value: string, after: string)
    requires AllSpace(before) && AllSpace(after) && Trimmed(value)
    ensures TrimRight(TrimLeft(before + value + after)) == value
  {
    if value == "" {
      AllTrimmed(before + value + after);
    } else {
      assert before + value + after == before + (value + after);
      SpaceBefore(before, value + after);
      SpaceAfter(value, after);
    }
  }

  lemma AllTrimmed(s: string)
    requires AllSpace(s)
    ensures TrimRight(TrimLeft(s)) == ""
  {
    assert s == s + "";
    SpaceBefore(s, "");
  }

  predicate WithoutLineFeed(s: string) {
    forall i :: 0 <= i < |s| ==> s[i] != '\n'
  }

  lemma FieldParts(name: string, text: string, rest: string)
    requires (forall i :: 0 <= i < |name| ==> name[i] != ':') && WithoutLineFeed(text)
    requires rest != "" ==> rest[0] == '\n'
    ensures var line, end := name + ":" + (text + rest), |name| + 1 + |text|;
      && Find(line, 0, ':') == |name| < end <= |line| && line[..|name|] == name
      && Find(line, |name| + 1, '\n') == end && line[|name| + 1..end] == text
  {
    var line, end := name + ":" + (text + rest), |name| + 1 + |text|;
    var colon := Find(line, 0, ':');
    assert line[|name|] == ':' && forall i :: 0 <= i < |name| ==> line[i] == name[i];
    assert forall i :: |name| + 1 <= i < end ==> line[i] == text[i - |name| - 1];
    assert rest != "" ==> line[end] == rest[0];
  }

  /** A header field is found under its name in lower case, without the space around its value, which
      ends at a line feed if there is one. */
  lemma FieldRead(h: Head, name: string, before: string, value: string, after: string, rest: string)
    requires h.verb != "" && (forall i :: 0 <= i < |name| ==> name[i] != ':')
    requires AllSpace(before) && AllSpace(after) && Trimmed(value) && WithoutLineFeed(before + value + after)
    requires rest != "" ==> rest[0] == '\n'
    ensures AddLine(h, name + ":" + (before + value + after + rest)) == h.(headers := h.headers[Lower(name) := value])
  {
    FieldParts(name, before + value + after, rest);
    TrimmedOf(before, value, after);
  }

  /** Letters are compared in lower case, and nothing else is changed. */
  lemma LowerIs(s: string, i: nat)
    requires i < |s|
    ensures |Lower(s)| == |s|
    ensures 'A' <= s[i] <= 'Z' ==>
      'a' <= Lower(s)[i] <= 'z' && Lower(s)[i] as int - 'a' as int == s[i] as int - 'A' as int
    ensures !('A' <= s[i] <= 'Z') ==> Lower(s)[i] == s[i]
  {
  }

  /** A line without a colon names a field that is empty. */
  lemma NamelessRead(h: Head, line: string)
    requires h.verb != "" && forall i :: 0 <= i < |line| ==> line[i] != ':'
    ensures AddLine(h, line) == h.(headers := h.headers[Lower(line) := ""])
  {
    assert Find(line, 0, ':') == |line| && line[..|line|] == line;
  }

  /** The line that ends the header leaves a field without a name. */
  lemma EmptyLine(h: Head)
    requires h.verb != ""
    ensures AddLine(h, "") == h.(headers := h.headers["" := ""])
  {
    NamelessRead(h, "");
    assert Lower("") == "";
  }

  datatype Field = Field(name: string, value: string)

  const CODING: string := "transfer-encoding"

  predicate ValidField(f: Field) {
    (forall i :: 0 <= i < |f.name| ==> f.name[i] != ':') && Trimmed(f.value) && WithoutLineFeed(f.value)
  }

  function FieldLines(fields: seq<Field>): (lines: seq<string>)
    ensures |lines| == |fields|
  {
    seq(|fields|, i requires 0 <= i < |fields| => fields[i].name + ":" + (" " + fields[i].value + "" + ""))
  }

  /** The last field with the name says chunked. */
  ghost predicate SaysChunked(fields: seq<Field>) {
    exists k :: 0 <= k < |fields| && fields[k].value == "chunked" && IsLastCoding(fields, k)
  }

  predicate IsLastCoding(fields: seq<Field>, k: nat)
    requires k < |fields|
  {
    Lower(fields[k].name) == CODING && forall j :: k < j < |fields| ==> Lower(fields[j].name) != CODING
  }

  lemma SaysWithOneMore(most: seq<Field>, last: Field)
    ensures SaysChunked(most + [last]) <==>
      if Lower(last.name) == CODING then last.value == "chunked" else SaysChunked(most)
  {
    var all := most + [last];
    assert all[|most|] == last && forall k :: 0 <= k < |most| ==> all[k] == most[k];
    if Lower(last.name) == CODING {
      assert IsLastCoding(all, |most|);
    } else {
      forall k | 0 <= k < |most| ensures IsLastCoding(all, k) <==> IsLastCoding(most, k) {
        assert forall j :: k < j < |most| ==> all[j] == most[j];
      }
    }
  }

  lemma {:induction false} FieldsRead(h: Head, fields: seq<Field>)
    requires h.verb != "" && CODING !in h.headers && forall i :: 0 <= i < |fields| ==> ValidField(fields[i])
    ensures var after := AddLines(h, FieldLines(fields));
      after.verb == h.verb && (HasChunkEncoding(after) <==> SaysChunked(fields))
  {
    if fields != [] {
      var most, last := fields[..|fields| - 1], fields[|fields| - 1];
      FieldsRead(h, most);
      SaysWithOneMore(most, last);
      assert fields == most + [last] && ValidField(last);
      OneMoreField(h, most, last);
    }
  }

  lemma OneMoreField(h: Head, most: seq<Field>, last: Field)
    requires ValidField(last) && AddLines(h, FieldLines(most)).verb != ""
    ensures var before := AddLines(h, FieldLines(most));
      AddLines(h, FieldLines(most + [last])) == before.(headers := before.headers[Lower(last.name) := last.value])
  {
    var line := last.name + ":" + (" " + last.value + "" + "");
    assert FieldLines(most + [last]) == FieldLines(most) + [line];
    OneMoreLine(h, FieldLines(most), line);
    FieldRead(AddLines(h, FieldLines(most)), last.name, " ", last.value, "", "");
  }

  /** A message is read as chunked if and only if the last field that has the name, in any letter
      case, says so. */
  lemma ChunkedIff(h: Head, fields: seq<Field>)
    requires h.verb != "" && CODING !in h.headers && forall i :: 0 <= i < |fields| ==> ValidField(fields[i])
    ensures HasChunkEncoding(AddLines(h, FieldLines(fields) + [""])) <==> SaysChunked(fields)
  {
    FieldsRead(h, fields);
    OneMoreLine(h, FieldLines(fields), "");
    EmptyLine(AddLines(h, FieldLines(fields)));
    assert |CODING| != |""|;
  }

  lemma ChunkedLine(h: Head, name: string)
    requires h.verb != "" && Lower(name) == CODING
    ensures AddLine(h, name + ":" + (" " + "chunked" + "" + "")) == h.(headers := h.headers[CODING := "chunked"])
  {
    NoColon(name);
    FieldRead(h, name, " ", "chunked", "", "");
  }

  /** So is one whose last field says so, whatever lines come before. */
  lemma ChunkedIsFound(h: Head, lines: seq<string>, name: string)
    requires AddLines(h, lines).verb != "" && Lower(name) == CODING
    ensures HasChunkEncoding(AddLines(h, lines + [name + ":" + (" " + "chunked" + "" + "")] + [""]))
  {
    var before, line := AddLines(h, lines), name + ":" + (" " + "chunked" + "" + "");
    OneMoreLine(h, lines, line);
    ChunkedLine(before, name);
    OneMoreLine(h, lines + [line], "");
    ChunkedStays(before, AddLine(before, line));
  }

  lemma ChunkedStays(before: Head, h: Head)
    requires h.verb != "" && h.headers == before.headers[CODING := "chunked"]
    ensures HasChunkEncoding(AddLine(h, ""))
  {
    EmptyLine(h);
    assert |CODING| != |""|;
    assert AddLine(h, "").headers[CODING] == "chunked";
  }

  lemma NoColon(name: string)
    requires Lower(name) == CODING
    ensures forall i :: 0 <= i < |name| ==> name[i] != ':'
  {
    forall i | 0 <= i < |name| ensures name[i] != ':' {
      assert Lower(name)[i] != ':';
    }
  }

  // ---- Chunks ----

  lemma SmallSize(n: nat)
    requires n < HALF
    ensures AsInt(n) == n
  {
  }

  lemma SizeLineNotEmpty(line: string)
    requires ParseSize(line).Some?
    ensures line != ""
  {
  }

  lemma ChunkStep(s: Stream, content: string, line: string, s1: Stream, size: string, n: nat, s2: Stream, data: string)
    requires ReadLine(s, line) == (s1, size) && ParseSize(size) == Some(n) && 0 < n < HALF
    requires ReadData(s1, n) == (s2, data)
    ensures ReadChunks(s, content, line) == if s2.good then ReadChunks(s2, content + data, size) else Hangs
  {
    SmallSize(n);
    SizeLineNotEmpty(size);
  }

  lemma LastChunk(s: Stream, content: string, line: string, s1: Stream, size: string)
    requires ReadLine(s, line) == (s1, size) && ParseSize(size) == Some(0)
    ensures ReadChunks(s, content, line) == Finished(content)
  {
    SmallSize(0);
  }

  lemma ChunkRead(c: Chunk, rest: string, content: string, line: string)
    requires ValidChunk(c)
    ensures ReadChunks(On(c.sizeLine + CRLF + c.data + CRLF + rest), content, line)
      == ReadChunks(On(rest), content + c.data, c.sizeLine)
  {
    var after := c.data + CRLF + rest;
    assert c.sizeLine + CRLF + c.data + CRLF + rest == c.sizeLine + CRLF + after;
    LineRead(c.sizeLine, after, line);
    DataRead(c.data, rest);
    ChunkStep(On(c.sizeLine + CRLF + after), content, line, On(after), c.sizeLine, |c.data|, On(rest), c.data);
  }

  /** Whole chunks are read and left behind, whatever follows them. */
  lemma {:induction false} ChunksSkip(chunks: seq<Chunk>, rest: string, content: string, line: string)
    returns (next: string)
    requires forall i :: 0 <= i < |chunks| ==> ValidChunk(chunks[i])
    ensures ReadChunks(On(EncodeChunks(chunks, rest)), content, line) ==
      ReadChunks(On(rest), content + Data(chunks), next)
    decreases |chunks|
  {
    if chunks == [] {
      next := line;
      assert content + Data(chunks) == content;
    } else {
      var c := chunks[0];
      ChunkRead(c, EncodeChunks(chunks[1..], rest), content, line);
      next := ChunksSkip(chunks[1..], rest, content + c.data, c.sizeLine);
      DataAfter(content, chunks);
    }
  }

  lemma DataAfter(content: string, chunks: seq<Chunk>)
    requires chunks != []
    ensures (content + chunks[0].data) + Data(chunks[1..]) == content + Data(chunks)
  {
    Associative(content, chunks[0].data, Data(chunks[1..]));
  }

  lemma Associative(a: string, b: string, c: string)
    ensures (a + b) + c == a + (b + c)
  {
  }

  lemma LastRead(last: string, trailer: string, content: string, line: string)
    requires OneLine(last) && ParseSize(last) == Some(0)
    ensures ReadChunks(On(last + CRLF + trailer), content, line) == Finished(content)
  {
    LineRead(last, trailer, line);
    LastChunk(On(last + CRLF + trailer), content, line, On(trailer), last);
  }

  lemma ChunksRead(chunks: seq<Chunk>, last: string, trailer: string, content: string, line: string)
    requires forall i :: 0 <= i < |chunks| ==> ValidChunk(chunks[i])
    requires OneLine(last) && ParseSize(last) == Some(0)
    ensures ReadChunks(On(EncodeChunks(chunks, last + CRLF + trailer)), content, line) ==
      Finished(content + Data(chunks))
  {
    var next := ChunksSkip(chunks, last + CRLF + trailer, content, line);
    LastRead(last, trailer, content + Data(chunks), next);
  }

  const NEW: Head := Head("", "", "", map[])

  /** Any list of chunks, of any characters, comes back as their concatenation: whatever their
      size lines add to the size, whatever follows the last one. */
  lemma ChunkedRoundTrip(lines: seq<string>, chunks: seq<Chunk>, last: string, trailer: string)
    requires forall i :: 0 <= i < |lines| ==> lines[i] != "" && OneLine(lines[i])
    requires HasChunkEncoding(AddLines(NEW, lines + [""]))
    requires forall i :: 0 <= i < |chunks| ==> ValidChunk(chunks[i])
    requires OneLine(last) && ParseSize(last) == Some(0)
    ensures ReadMessage(EncodeLines(lines, EncodeChunks(chunks, last + CRLF + trailer)), NEW)
      == (Some(AddLines(NEW, lines + [""])), Finished(Data(chunks)))
  {
    HeadRead(NEW, lines, EncodeChunks(chunks, last + CRLF + trailer), "");
    ChunksRead(chunks, last, trailer, "", "");
    assert "" + Data(chunks) == Data(chunks);
  }

  /** The fields of a message read before are forgotten. */
  lemma OldFieldsForgotten(everything: string, before: Head, headers: map<string, string>)
    ensures ReadMessage(everything, before.(headers := headers)) == ReadMessage(everything, before)
  {
  }

  /** A body that is not chunked comes back unchanged. */
  lemma PlainRoundTrip(lines: seq<string>, body: string)
    requires forall i :: 0 <= i < |lines| ==> lines[i] != "" && OneLine(lines[i])
    requires !HasChunkEncoding(AddLines(NEW, lines + [""]))
    ensures ReadMessage(EncodeLines(lines, body), NEW) == (Some(AddLines(NEW, lines + [""])), Finished(body))
  {
    HeadRead(NEW, lines, body, "");
  }

  /** A body cut off inside a chunk is never finished: the read loops for ever. */
  lemma TruncatedChunkHangs(c: Chunk, sent: string, line: string, content: string)
    requires ValidChunk(c) && |sent| < |c.data|
    ensures ReadChunks(On(c.sizeLine + CRLF + sent), content, line) == Hangs
  {
    LineRead(c.sizeLine, sent, line);
    var cut := ReadData(On(sent), |c.data|);
    ChunkStep(On(c.sizeLine + CRLF + sent), content, line, On(sent), c.sizeLine, |c.data|, cut.0, cut.1);
  }

  // ---- Sizes in hexadecimal ----

  function HexChar(d: nat): char
    requires d < 16
  {
    if d < 10 then ('0' as int + d) as char else ('a' as int + d - 10) as char
  }

  function HexOf(n: nat): (s: string)
    ensures s != "" && OneLine(s)
    ensures forall i :: 0 <= i < |s| ==> HexDigit(s[i]) >= 0
  {
    if n < 16 then [HexChar(n)] else HexOf(n / 16) + [HexChar(n % 16)]
  }

  lemma {:induction false} HexRunAppend(s: string, c: char, value: nat)
    requires (forall i :: 0 <= i < |s| ==> HexDigit(s[i]) >= 0) && HexDigit(c) >= 0
    ensures HexRun(s + [c], value) == 16 * HexRun(s, value) + HexDigit(c)
    decreases |s|
  {
    if s == "" {
      assert s + [c] == [c] && [c][1..] == "";
    } else {
      assert (s + [c])[1..] == s[1..] + [c];
      HexRunAppend(s[1..], c, 16 * value + HexDigit(s[0]));
    }
  }

  lemma {:induction false} HexRunOf(n: nat)
    ensures HexRun(HexOf(n), 0) == n
  {
    if n < 16 {
      assert HexOf(n)[1..] == "";
      assert HexRun(HexOf(n), 0) == HexRun("", HexDigit(HexChar(n)));
    } else {
      HexRunOf(n / 16);
      HexRunAppend(HexOf(n / 16), HexChar(n % 16), 0);
    }
  }

  /** The size lines a server writes are read back as the sizes. */
  lemma SizeRoundTrip(n: nat)
    requires n < WORD
    ensures ParseSize(HexOf(n)) == Some(n)
  {
    var s := HexOf(n);
    HexRunOf(n);
    assert HexDigit(s[0]) >= 0;
    assert TrimLeft(s) == s;
    if |s| > 1 {
      assert HexDigit(s[1]) >= 0;
    }
  }

  // ---- Any size line ----

  /** The digits, in either letter case. */
  lemma DigitIff(c: char, i: nat)
    requires i < 16
    ensures HexDigit(c) == i <==> c == "0123456789abcdef"[i] || c == "0123456789ABCDEF"[i]
  {
  }

  predicate AllHex(s: string) {
    forall i :: 0 <= i < |s| ==> HexDigit(s[i]) >= 0
  }

  lemma {:induction false} HexRunStops(digits: string, rest: string, value: nat)
    requires AllHex(digits) && !StartsHex(rest)
    ensures HexRun(digits + rest, value) == HexRun(digits, value)
    decreases |digits|
  {
    if digits == "" {
      assert digits + rest == rest;
    } else {
      assert (digits + rest)[1..] == digits[1..] + rest;
      HexRunStops(digits[1..], rest, 16 * value + HexDigit(digits[0]));
    }
  }

  /** What is left of a size line once its space, its sign and its prefix are gone. */
  function AfterSign(s: string): string {
    if s != "" && (s[0] == '-' || s[0] == '+') then s[1..] else s
  }

  predicate HasPrefix(t: string) {
    |t| > 2 && t[0] == '0' && (t[1] == 'x' || t[1] == 'X') && HexDigit(t[2]) >= 0
  }

  lemma SignRead(sign: string, t: string)
    requires sign in ["", "+", "-"] && (t != "" ==> t[0] != '-' && t[0] != '+')
    ensures AfterSign(sign + t) == t
    ensures sign + t != "" && (sign + t)[0] == '-' <==> sign == "-"
  {
    if sign == "" {
      assert sign + t == t;
    } else {
      assert (sign + t)[1..] == t && (sign + t)[0] == sign[0];
    }
  }

  lemma DigitsAfterPrefix(prefix: string, digits: string, rest: string)
    requires prefix in ["", "0x", "0X"] && digits != "" && AllHex(digits)
    requires prefix == "" ==> !HasPrefix(digits + rest)
    ensures var t := prefix + digits + rest; (if HasPrefix(t) then t[2..] else t) == digits + rest
    ensures var t := prefix + digits + rest; t != "" && t[0] != '-' && t[0] != '+' && !IsSpace(t[0])
    ensures StartsHex(digits + rest)
  {
    assert (digits + rest)[0] == digits[0];
    var t := prefix + digits + rest;
    if prefix == "" {
      assert t == digits + rest && t[0] == digits[0];
    } else {
      assert t[0] == '0' && t[1] == prefix[1] && t[2] == digits[0] && t[2..] == digits + rest;
    }
  }

  lemma ParseFrom(line: string, sign: string, t: string, digits: string)
    requires sign in ["", "+", "-"] && t != "" && t[0] != '-' && t[0] != '+'
    requires TrimLeft(line) == sign + t && digits == (if HasPrefix(t) then t[2..] else t) && StartsHex(digits)
    ensures var n := HexRun(digits, 0);
      ParseSize(line) == if n >= WORD then None else Some(if sign == "-" && n > 0 then WORD - n else n)
  {
    SignRead(sign, t);
  }

  /** What std::stoul makes of any size line: space, a sign, a prefix, digits in either case, and
      whatever follows them. It throws on a number of more than 64 bits, and a minus counts back
      from 2^64. */
  lemma ParseSizeIs(space: string, sign: string, prefix: string, digits: string, rest: string)
    requires AllSpace(space) && sign in ["", "+", "-"] && prefix in ["", "0x", "0X"]
    requires digits != "" && AllHex(digits) && !StartsHex(rest)
    requires prefix == "" ==> !HasPrefix(digits + rest)
    ensures var n := HexRun(digits, 0);
      ParseSize(space + (sign + (prefix + digits + rest))) ==
        if n >= WORD then None else Some(if sign == "-" && n > 0 then WORD - n else n)
  {
    DigitsAfterPrefix(prefix, digits, rest);
    HexRunStops(digits, rest, 0);
    ParseAfterSpace(space, sign, prefix + digits + rest, digits + rest);
  }

  lemma ParseAfterSpace(space: string, sign: string, t: string, digits: string)
    requires AllSpace(space) && sign in ["", "+", "-"]
    requires t != "" && t[0] != '-' && t[0] != '+' && !IsSpace(t[0])
    requires digits == (if HasPrefix(t) then t[2..] else t) && StartsHex(digits)
    ensures var n := HexRun(digits, 0);
      ParseSize(space + (sign + t)) == if n >= WORD then None else Some(if sign == "-" && n > 0 then WORD - n else n)
  {
    SpaceBeforeSign(space, sign, t);
    ParseFrom(space + (sign + t), sign, t, digits);
  }

  lemma SpaceBeforeSign(space: string, sign: string, t: string)
    requires AllSpace(space) && sign in ["", "+", "-"] && (t != "" ==> !IsSpace(t[0]))
    ensures TrimLeft(space + (sign + t)) == sign + t
  {
    assert sign == "" ==> sign + t == t;
    assert sign != "" ==> (sign + t)[0] == sign[0];
    SpaceBefore(space, sign + t);
  }

  /** It throws, too, on a line with no digit where the number should start. */
  lemma NoSize(space: string, sign: string, t: string)
    requires AllSpace(space) && sign in ["", "+", "-"] && !StartsHex(t)
    requires t != "" ==> t[0] != '-' && t[0] != '+' && !IsSpace(t[0])
    ensures ParseSize(space + (sign + t)) == None
  {
    SignRead(sign, t);
    SpaceBeforeSign(space, sign, t);
  }

  /** What a size line that is not empty makes of the loop: only the low 32 bits count, as a signed
      number. */
  lemma SizeLineOutcome(s: Stream, content: string, line: string, s1: Stream, size: string)
    requires ReadLine(s, line) == (s1, size) && size != ""
    ensures ReadChunks(s, content, line) ==
      match ParseSize(size)
      case None => Throws
      case Some(n) =>
        var low := n % 0x1_0000_0000;
        if low >= 0x8000_0000 then Throws
        else if low == 0 then Finished(content)
        else var (s2, data) := ReadData(s1, low);
          if s2.good then ReadChunks(s2, content + data, size) else Hangs
  {
  }
}
