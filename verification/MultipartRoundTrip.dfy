/** Printing a multipart body and parsing it back. */
module MultipartRoundTrip {
  import opened Text
  import opened Multipart

  datatype Part = Part(headers: string, content: string)

  /** What a reader of the reports sees. */
  datatype Line =
    | FileName(index: nat, text: string)
    | FileContent(index: nat, text: string)
    | InvalidBoundary(text: string)

  predicate InRange(body: string, r: Report) {
    r.Invalid? || r.beg <= r.end <= |body|
  }

  function Show(body: string, r: Report): Line
    requires InRange(body, r)
  {
    match r
    case Name(index, beg, end) => FileName(index, body[beg..end])
    case Content(index, beg, end) => FileContent(index, body[beg..end])
    case Invalid(boundary) => InvalidBoundary(boundary)
  }

  function ShowAll(body: string, rs: seq<Report>): seq<Line>
    requires forall r :: r in rs ==> InRange(body, r)
  {
    seq(|rs|, i requires 0 <= i < |rs| => Show(body, rs[i]))
  }

  // ---------------------------------------------------------------------------------------------
  // Printing

  /** The parts from the first header block on; `epilogue` follows the closing delimiter. */
  function PrintParts(b: string, parts: seq<Part>, epilogue: string): string
    requires parts != []
  {
    parts[0].headers + CRLF_CRLF + parts[0].content + NextHead(b) +
    if |parts| == 1 then "--" + epilogue else CRLF + PrintParts(b, parts[1..], epilogue)
  }

  function Print(b: string, parts: seq<Part>, epilogue: string): string
    requires parts != []
  {
    FirstBoundary(b) + PrintParts(b, parts, epilogue)
  }

  // ---------------------------------------------------------------------------------------------
  // What can be printed

  predicate GoodBoundary(b: string) {
    '\r' !in b && '\"' !in b
  }

  predicate HasName(headers: string) {
    var head := Find(headers, FILENAME_HEAD, 0);
    head.Some? && Find(headers, QUOTE, head.value + |FILENAME_HEAD|).Some?
  }

  function FileNameOf(headers: string): string
    requires HasName(headers)
  {
    var beg := Find(headers, FILENAME_HEAD, 0).value + |FILENAME_HEAD|;
    headers[beg..Find(headers, QUOTE, beg).value]
  }

  ghost predicate Absent(s: string, p: string) {
    forall j :: !At(s, p, j)
  }

  ghost predicate GoodPart(b: string, p: Part) {
    && HasName(p.headers)
    && Absent(p.headers, CRLF_CRLF)
    && !At(p.headers, CRLF, |p.headers| - 2)
    && Absent(p.content, NextHead(b))
  }

  predicate Named(parts: seq<Part>) {
    forall i :: 0 <= i < |parts| ==> HasName(parts[i].headers)
  }

  ghost predicate GoodParts(b: string, parts: seq<Part>) {
    parts != [] && Named(parts) && forall i :: 0 <= i < |parts| ==> GoodPart(b, parts[i])
  }

  /** What a reader should see. */
  function Lines(parts: seq<Part>, index: nat): seq<Line>
    requires Named(parts)
  {
    if parts == [] then [] else
      [FileName(index + 1, FileNameOf(parts[0].headers)), FileContent(index + 1, parts[0].content)] +
      Lines(parts[1..], index + 1)
  }

  // ---------------------------------------------------------------------------------------------
  // Where the searches stop

  /** The search for the blank line after a header block, from the block's start. */
  lemma BlankLineIn(h: string, rest: string, j: nat)
    requires Absent(h, CRLF_CRLF) && !At(h, CRLF, |h| - 2) && j < |h|
    ensures !At(h + CRLF_CRLF + rest, CRLF_CRLF, j)
  {
    var s := h + CRLF_CRLF + rest;
    if j + 4 <= |h| {
      assert At(s, h, 0);
      AtShift(s, 0, h, CRLF_CRLF, j);
    } else if j == |h| - 2 {
      AtChars(h, CRLF, j);
      NotAt(s, CRLF_CRLF, j, if h[j] == '\r' then 1 else 0);
    } else {
      NotAt(s, CRLF_CRLF, j, if j == |h| - 1 then 1 else 3);
    }
  }

  /** The delimiter has its only CR in front, so it cannot start inside a content that lacks it. */
  lemma DelimiterAfter(b: string, c: string, rest: string, j: nat)
    requires GoodBoundary(b) && Absent(c, NextHead(b)) && j < |c|
    ensures !At(c + NextHead(b) + rest, NextHead(b), j)
  {
    var s, n := c + NextHead(b) + rest, NextHead(b);
    if j + |n| <= |c| {
      assert At(s, c, 0);
      AtShift(s, 0, c, n, j);
    } else {
      var k := |c| - j;
      assert s[|c|] == '\r';
      assert n[k] == if k == 1 then '\n' else if k < 4 then '-' else b[k - 4];
      NotAt(s, n, j, k);
    }
  }

  /** The file name mark is not to be found in the opening delimiter. */
  lemma NoNameInFirstBoundary(b: string, rest: string, j: nat)
    requires GoodBoundary(b) && j < |FirstBoundary(b)|
    ensures !At(FirstBoundary(b) + rest, FILENAME_HEAD, j)
  {
    var s, n := FirstBoundary(b) + rest, |FirstBoundary(b)|;
    if j + 9 < n - 2 {
      assert s[j + 9] == if j + 9 < 2 then '-' else b[j + 9 - 2];
      NotAt(s, FILENAME_HEAD, j, 9);
    } else if j <= n - 2 {
      assert s[n - 2] == '\r';
      NotAt(s, FILENAME_HEAD, j, n - 2 - j);
    } else {
      assert s[n - 1] == '\n';
      NotAt(s, FILENAME_HEAD, j, 0);
    }
  }

  /** Nor is the blank line, unless what follows starts with an empty line. */
  lemma NoBlankInFirstBoundary(b: string, rest: string, j: nat)
    requires GoodBoundary(b) && j < |FirstBoundary(b)| && |rest| >= 2 && !At(rest, CRLF, 0)
    ensures !At(FirstBoundary(b) + rest, CRLF_CRLF, j)
  {
    var s, n := FirstBoundary(b) + rest, |FirstBoundary(b)|;
    if j == n - 2 {
      AtChars(rest, CRLF, 0);
      assert s[n] == rest[0] && s[n + 1] == rest[1];
      NotAt(s, CRLF_CRLF, j, if rest[0] == '\r' then 3 else 2);
    } else if j == n - 1 {
      assert s[n - 1] == '\n';
      NotAt(s, CRLF_CRLF, j, 0);
    } else {
      assert s[j] == if j < 2 then '-' else b[j - 2];
      NotAt(s, CRLF_CRLF, j, 0);
    }
  }

  // ---------------------------------------------------------------------------------------------
  // One part

  /** Searches in a stretch at `start` that nothing before it answers, answered in the body. */
  lemma FindShift(body: string, part: string, p: string, pos: nat, start: nat, from: nat, k: nat)
    requires At(body, part, start) && pos <= start + from
    requires from <= k && At(part, p, k)
    requires forall j :: from <= j < k ==> !At(part, p, j)
    requires forall j :: pos <= j < start + from ==> !At(body, p, j)
    ensures Find(body, p, pos) == Some(start + k)
  {
    AtShift(body, start, part, p, k);
    forall j | pos <= j < start + k ensures !At(body, p, j) {
      if start + from <= j {
        AtShift(body, start, part, p, j - start);
      }
    }
    FindIs(body, p, pos, start + k);
  }

  /** The parser is at a part: `pos` is where it searches from, `start` where the headers start. */
  ghost predicate AtPart(b: string, body: string, pos: nat, start: nat, p: Part, rest: string) {
    && At(body, PartText(b, p, rest), start)
    && GoodPart(b, p)
    && pos <= start
    && (forall j :: pos <= j < start ==> !At(body, FILENAME_HEAD, j) && !At(body, CRLF_CRLF, j))
  }

  /** A part's text, cut where the searches stop. */
  function PartText(b: string, p: Part, rest: string): string {
    p.headers + CRLF_CRLF + p.content + NextHead(b) + rest
  }

  lemma PartPieces(b: string, body: string, start: nat, p: Part, rest: string)
    requires At(body, PartText(b, p, rest), start)
    ensures At(body, p.headers, start)
    ensures At(body, p.headers + CRLF_CRLF + (p.content + NextHead(b) + rest), start)
    ensures At(body, p.content + NextHead(b) + rest, start + |p.headers| + 4)
  {
    hide NextHead;
    var h, tail := p.headers, p.content + NextHead(b) + rest;
    var whole := h + CRLF_CRLF + tail;
    assert whole == PartText(b, p, rest);
    assert At(whole, h, 0) && At(whole, tail, |h| + 4);
    AtShift(body, start, whole, h, 0);
    AtShift(body, start, whole, tail, |h| + 4);
  }

  lemma SliceOfSlice(s: string, start: nat, part: string, i: nat, j: nat)
    requires At(s, part, start) && i <= j <= |part|
    ensures s[start + i..start + j] == part[i..j]
  {
    AtChars(s, part, start);
    var slice := s[start + i..start + j];
    forall k | 0 <= k < j - i ensures slice[k] == part[i..j][k] {
      assert s[start + (i + k)] == part[i + k];
    }
    assert slice == part[i..j];
  }

  lemma NameSearch(body: string, pos: nat, start: nat, h: string)
    requires At(body, h, start) && HasName(h) && pos <= start
    requires forall j :: pos <= j < start ==> !At(body, FILENAME_HEAD, j)
    ensures var name := Find(h, FILENAME_HEAD, 0).value + |FILENAME_HEAD|;
            var quote := Find(h, QUOTE, name).value;
            && Find(body, FILENAME_HEAD, pos) == Some(start + name - |FILENAME_HEAD|)
            && Find(body, QUOTE, start + name) == Some(start + quote)
            && body[start + name..start + quote] == FileNameOf(h)
  {
    hide Find;
    var name := Find(h, FILENAME_HEAD, 0).value + |FILENAME_HEAD|;
    var quote := Find(h, QUOTE, name).value;
    FindShift(body, h, FILENAME_HEAD, pos, start, 0, name - |FILENAME_HEAD|);
    FindShift(body, h, QUOTE, start + name, start, name, quote);
    SliceOfSlice(body, start, h, name, quote);
  }

  lemma BlankSearch(body: string, pos: nat, start: nat, h: string, tail: string)
    requires At(body, h + CRLF_CRLF + tail, start) && pos <= start
    requires Absent(h, CRLF_CRLF) && !At(h, CRLF, |h| - 2)
    requires forall j :: pos <= j < start ==> !At(body, CRLF_CRLF, j)
    ensures Find(body, CRLF_CRLF, pos) == Some(start + |h|)
  {
    hide Find;
    var whole := h + CRLF_CRLF + tail;
    forall j | 0 <= j < |h| ensures !At(whole, CRLF_CRLF, j) {
      BlankLineIn(h, tail, j);
    }
    assert At(whole, CRLF_CRLF, |h|);
    FindShift(body, whole, CRLF_CRLF, pos, start, 0, |h|);
  }

  lemma DelimiterSearch(b: string, body: string, start: nat, c: string, rest: string)
    requires GoodBoundary(b) && Absent(c, NextHead(b)) && At(body, c + NextHead(b) + rest, start)
    ensures Find(body, NextHead(b), start) == Some(start + |c|)
    ensures body[start..start + |c|] == c
    ensures At(body, rest, start + |c| + |NextHead(b)|)
  {
    hide Find, NextHead;
    var tail := c + NextHead(b) + rest;
    forall j | 0 <= j < |c| ensures !At(tail, NextHead(b), j) {
      DelimiterAfter(b, c, rest, j);
    }
    assert At(tail, NextHead(b), |c|) && At(tail, c, 0) && At(tail, rest, |c| + |NextHead(b)|);
    FindShift(body, tail, NextHead(b), start, start, 0, |c|);
    AtShift(body, start, tail, c, 0);
    AtShift(body, start, tail, rest, |c| + |NextHead(b)|);
  }

  /** The name the parser reports of a part it is at. */
  lemma PartName(b: string, body: string, pos: nat, start: nat, p: Part, rest: string, index: nat)
    returns (beg: nat, end: nat)
    requires AtPart(b, body, pos, start, p, rest)
    ensures beg <= end <= |body| && body[beg..end] == FileNameOf(p.headers)
    ensures NameFrom(body, pos, index) == [Name(index, beg, end)]
  {
    hide Find, NextHead, At, Absent;
    PartPieces(b, body, start, p, rest);
    NameSearch(body, pos, start, p.headers);
    beg := start + Find(p.headers, FILENAME_HEAD, 0).value + |FILENAME_HEAD|;
    end := Find(body, QUOTE, beg).value;
    FindInRange(body, QUOTE, beg);
  }

  lemma PartSearches(b: string, body: string, pos: nat, start: nat, p: Part, rest: string)
    requires GoodBoundary(b) && AtPart(b, body, pos, start, p, rest)
    ensures var beg := start + |p.headers| + 4; var end := beg + |p.content|; var next := end + |NextHead(b)|;
            && Find(body, CRLF_CRLF, pos) == Some(beg - 4) && Find(body, NextHead(b), beg) == Some(end)
            && next <= |body| && At(body, rest, next) && body[beg..end] == p.content
  {
    hide Find, NextHead, HasName, Absent;
    PartPieces(b, body, start, p, rest);
    BlankSearch(body, pos, start, p.headers, p.content + NextHead(b) + rest);
    DelimiterSearch(b, body, start + |p.headers| + 4, p.content, rest);
  }

  /** The content the parser reports of it, and where it goes on. */
  lemma PartContent(b: string, body: string, pos: nat, start: nat, p: Part, rest: string, index: nat)
    requires GoodBoundary(b) && AtPart(b, body, pos, start, p, rest)
    ensures var beg := start + |p.headers| + 4; var end := beg + |p.content|; var next := end + |NextHead(b)|;
            && next <= |body| && At(body, rest, next) && body[beg..end] == p.content
            && ContentFrom(b, body, pos, index) ==
                 var tail := Substr(body, next, 2);
                 if tail == CRLF then [Content(index, beg, end)] + ParseFrom(b, body, next + 2, index)
                 else if tail == "--" then [Content(index, beg, end)]
                 else [Invalid(NextHead(b) + tail)]
  {
    hide Find, NextHead, ParseFrom, AtPart, At;
    PartSearches(b, body, pos, start, p, rest);
  }

  // ---------------------------------------------------------------------------------------------
  // All parts

  predicate AllInRange(body: string, rs: seq<Report>) {
    forall r :: r in rs ==> InRange(body, r)
  }

  lemma ShowAppend(body: string, r: Report, rs: seq<Report>)
    requires InRange(body, r) && AllInRange(body, rs)
    ensures AllInRange(body, [r] + rs)
    ensures ShowAll(body, [r] + rs) == [Show(body, r)] + ShowAll(body, rs)
  {
  }

  lemma SubstrOf(body: string, start: nat, mark: string, rest: string)
    requires |mark| == 2 && At(body, mark + rest, start)
    ensures start + 2 <= |body| && Substr(body, start, 2) == mark && At(body, rest, start + 2)
  {
    AtChars(body, mark + rest, start);
    assert Substr(body, start, 2) == body[start..start + 2];
    assert body[start] == (mark + rest)[0] && body[start + 1] == (mark + rest)[1];
    assert At(mark + rest, rest, 2);
    AtShift(body, start, mark + rest, rest, 2);
  }

  /** One part shown, given how what follows its content is shown. */
  lemma ShowPart(body: string, p: Part, name: Report, content: Report, more: seq<Report>, index: nat)
    requires HasName(p.headers)
    requires name.Name? && content.Content? && name.index == content.index == index
    requires InRange(body, name) && InRange(body, content) && AllInRange(body, more)
    requires body[name.beg..name.end] == FileNameOf(p.headers) && body[content.beg..content.end] == p.content
    ensures AllInRange(body, [name] + ([content] + more))
    ensures ShowAll(body, [name] + ([content] + more)) ==
            [FileName(index, FileNameOf(p.headers)), FileContent(index, p.content)] + ShowAll(body, more)
  {
    hide FileNameOf, HasName;
    ShowAppend(body, content, more);
    ShowAppend(body, name, [content] + more);
  }

  /** What is shown of a part the parser is at; `more` is what it reports afterwards. */
  lemma PartShown(b: string, body: string, pos: nat, start: nat, p: Part, rest: string, more: seq<Report>, index: nat)
    requires GoodBoundary(b) && AtPart(b, body, pos, start, p, rest) && AllInRange(body, more)
    requires var next := start + |p.headers| + 4 + |p.content| + |NextHead(b)|;
             At(body, rest, next) ==>
               && next <= |body|
               && if Substr(body, next, 2) == CRLF then
                    next + 2 <= |body| && more == ParseFrom(b, body, next + 2, index)
                  else Substr(body, next, 2) == "--" && more == []
    ensures AllInRange(body, NameFrom(body, pos, index) + ContentFrom(b, body, pos, index))
    ensures ShowAll(body, NameFrom(body, pos, index) + ContentFrom(b, body, pos, index)) ==
            [FileName(index, FileNameOf(p.headers)), FileContent(index, p.content)] + ShowAll(body, more)
  {
    hide Find, NextHead, HasName, FileNameOf, Show, ShowAll, NameFrom, ContentFrom, Absent, PartText;
    PartContent(b, body, pos, start, p, rest, index);
    var n, q := PartName(b, body, pos, start, p, rest, index);
    var beg := start + |p.headers| + 4;
    var content := Content(index, beg, beg + |p.content|);
    ShowPart(body, p, Name(index, n, q), content, more, index);
    assert [content] + [] == [content];
  }

  lemma {:induction false} RoundTripFrom(
    b: string, parts: seq<Part>, epilogue: string, body: string, pos: nat, start: nat, index: nat)
    requires GoodBoundary(b) && GoodParts(b, parts)
    requires At(body, PrintParts(b, parts, epilogue), start) && pos <= start
    requires forall j :: pos <= j < start ==> !At(body, FILENAME_HEAD, j) && !At(body, CRLF_CRLF, j)
    ensures AllInRange(body, ParseFrom(b, body, pos, index))
    ensures ShowAll(body, ParseFrom(b, body, pos, index)) == Lines(parts, index)
    decreases |parts|
  {
    hide Find, NextHead, HasName, FileNameOf, Show, ShowAll, NameFrom, ContentFrom, Absent, GoodPart, Substr, At;
    var p, more := parts[0], parts[1..];
    var rest := Rest(b, parts, epilogue);
    var next := start + |p.headers| + 4 + |p.content| + |NextHead(b)|;
    RestFollows(b, parts, epilogue, body, start);
    if more == [] {
      ShowNothing(body);
      PartShown(b, body, pos, start, p, rest, [], index + 1);
    } else {
      RoundTripFrom(b, more, epilogue, body, next + 2, next + 2, index + 1);
      PartShown(b, body, pos, start, p, rest, ParseFrom(b, body, next + 2, index + 1), index + 1);
    }
  }

  /** What is printed after the first part's delimiter. */
  function Rest(b: string, parts: seq<Part>, epilogue: string): string
    requires parts != []
  {
    if |parts| == 1 then "--" + epilogue else CRLF + PrintParts(b, parts[1..], epilogue)
  }

  lemma PrintIsText(b: string, parts: seq<Part>, epilogue: string)
    requires parts != []
    ensures PrintParts(b, parts, epilogue) == PartText(b, parts[0], Rest(b, parts, epilogue))
  {
    hide NextHead;
  }

  lemma RestFollows(b: string, parts: seq<Part>, epilogue: string, body: string, start: nat)
    requires parts != [] && At(body, PrintParts(b, parts, epilogue), start)
    ensures var p := parts[0]; var next := start + |p.headers| + 4 + |p.content| + |NextHead(b)|;
            && At(body, PartText(b, p, Rest(b, parts, epilogue)), start)
            && next + 2 <= |body|
            && Substr(body, next, 2) == (if |parts| == 1 then "--" else CRLF)
            && (|parts| > 1 ==> At(body, PrintParts(b, parts[1..], epilogue), next + 2))
  {
    hide NextHead, At, Substr;
    var p, rest := parts[0], Rest(b, parts, epilogue);
    PrintIsText(b, parts, epilogue);
    PartPieces(b, body, start, p, rest);
    RestAt(b, body, start + |p.headers| + 4, p.content, rest);
    var next := start + |p.headers| + 4 + |p.content| + |NextHead(b)|;
    if |parts| == 1 {
      SubstrOf(body, next, "--", epilogue);
    } else {
      SubstrOf(body, next, CRLF, PrintParts(b, parts[1..], epilogue));
    }
  }

  lemma RestAt(b: string, body: string, start: nat, c: string, rest: string)
    requires At(body, c + NextHead(b) + rest, start)
    ensures At(body, rest, start + |c| + |NextHead(b)|)
  {
    hide NextHead;
    var tail := c + NextHead(b) + rest;
    assert At(tail, rest, |c| + |NextHead(b)|);
    AtShift(body, start, tail, rest, |c| + |NextHead(b)|);
  }

  lemma ShowNothing(body: string)
    ensures ShowAll(body, []) == []
  {
  }

  /** Printing any list of parts and parsing the result reports exactly their file names and contents,
      in order, provided the first header block does not start with an empty line. */
  lemma RoundTrip(b: string, parts: seq<Part>, epilogue: string)
    requires GoodBoundary(b) && GoodParts(b, parts)
    requires !At(parts[0].headers, CRLF, 0)
    ensures var body := Print(b, parts, epilogue);
            && AllInRange(body, Parse(b, body))
            && ShowAll(body, Parse(b, body)) == Lines(parts, 0)
  {
    var rest := PrintParts(b, parts, epilogue);
    var body := Print(b, parts, epilogue);
    OpeningSearch(b, rest);
    FirstHeaders(b, parts, epilogue);
    forall j | 0 <= j < |FirstBoundary(b)|
      ensures !At(body, FILENAME_HEAD, j) && !At(body, CRLF_CRLF, j) {
      NoNameInFirstBoundary(b, rest, j);
      NoBlankInFirstBoundary(b, rest, j);
    }
    RoundTripFrom(b, parts, epilogue, body, 0, |FirstBoundary(b)|, 0);
  }

  lemma OpeningSearch(b: string, rest: string)
    ensures Find(FirstBoundary(b) + rest, FirstBoundary(b), 0) == Some(0)
    ensures At(FirstBoundary(b) + rest, rest, |FirstBoundary(b)|)
  {
    assert At(FirstBoundary(b) + rest, FirstBoundary(b), 0);
  }

  lemma FirstHeaders(b: string, parts: seq<Part>, epilogue: string)
    requires parts != [] && HasName(parts[0].headers)
    ensures var rest := PrintParts(b, parts, epilogue);
            |rest| >= 2 && (At(rest, CRLF, 0) <==> At(parts[0].headers, CRLF, 0))
  {
    var rest, h := PrintParts(b, parts, epilogue), parts[0].headers;
    assert At(rest, h, 0);
    AtShift(rest, 0, h, CRLF, 0);
  }

  // ---------------------------------------------------------------------------------------------
  // The empty first line

  lemma ParseInRange(b: string, body: string)
    ensures AllInRange(body, Parse(b, body))
  {
    ReportsAreSound(b, body);
    forall r | r in Parse(b, body) ensures InRange(body, r) {
      assert SoundName(body, r) && SoundContent(b, body, 0, 0, r);
    }
  }

  /** With an empty line after it, the opening delimiter's own line end begins the blank line. */
  lemma BlankInFirstBoundary(b: string, rest: string)
    requires GoodBoundary(b) && At(rest, CRLF, 0)
    ensures Find(FirstBoundary(b) + rest, CRLF_CRLF, 0) == Some(|FirstBoundary(b)| - 2)
  {
    var s, n := FirstBoundary(b) + rest, |FirstBoundary(b)|;
    forall j | 0 <= j < n - 2 ensures !At(s, CRLF_CRLF, j) {
      assert s[j] == if j < 2 then '-' else b[j - 2];
      NotAt(s, CRLF_CRLF, j, 0);
    }
    AtChars(rest, CRLF, 0);
    assert s[n - 2] == '\r' && s[n - 1] == '\n' && s[n] == rest[0] && s[n + 1] == rest[1];
    AtChars(s, CRLF_CRLF, n - 2);
    FindIs(s, CRLF_CRLF, 0, n - 2);
  }

  lemma AbsentInSuffix(s: string, k: nat, p: string)
    requires k <= |s| && Absent(s, p)
    ensures Absent(s[k..], p)
  {
    forall j ensures !At(s[k..], p, j) {
      if 0 <= j && j + |p| <= |s[k..]| {
        assert At(s, s[k..], k);
        AtShift(s, k, s[k..], p, j);
      }
    }
  }

  /** What the parser takes for the content of a first part whose headers start with an empty line. */
  function Overlong(p: Part): string
    requires |p.headers| >= 2
  {
    p.headers[2..] + CRLF_CRLF + p.content
  }

  /** The file name of a first part is found whether or not an empty line precedes it. */
  lemma FirstNameFound(b: string, p: Part, rest: string)
    requires GoodBoundary(b) && HasName(p.headers)
    ensures |NameFrom(FirstBoundary(b) + PartText(b, p, rest), 0, 1)| == 1
  {
    hide Find, FirstBoundary, NextHead;
    var text, n := PartText(b, p, rest), |FirstBoundary(b)|;
    OpeningSearch(b, text);
    assert text == p.headers + (CRLF_CRLF + p.content + NextHead(b) + rest);
    assert At(text, p.headers, 0);
    AtShift(FirstBoundary(b) + text, n, text, p.headers, 0);
    forall j | 0 <= j < n ensures !At(FirstBoundary(b) + text, FILENAME_HEAD, j) {
      NoNameInFirstBoundary(b, text, j);
    }
    NameSearch(FirstBoundary(b) + text, 0, n, p.headers);
  }

  /** The searches for such a part's blank line and delimiter. */
  lemma EmptyLineSearches(b: string, p: Part, rest: string)
    requires GoodBoundary(b) && At(p.headers, CRLF, 0)
    requires Absent(p.headers + CRLF_CRLF + p.content, NextHead(b))
    ensures var body, beg := FirstBoundary(b) + PartText(b, p, rest), |FirstBoundary(b)| + 2;
            && Find(body, CRLF_CRLF, 0) == Some(beg - 4)
            && Find(body, NextHead(b), beg) == Some(beg + |Overlong(p)|)
            && body[beg..beg + |Overlong(p)|] == Overlong(p)
            && At(body, rest, beg + |Overlong(p)| + |NextHead(b)|)
  {
    hide Find, NextHead;
    var text, c := PartText(b, p, rest), Overlong(p);
    var body, n := FirstBoundary(b) + text, |FirstBoundary(b)|;
    OpeningSearch(b, text);
    assert At(text, p.headers, 0);
    AtShift(text, 0, p.headers, CRLF, 0);
    BlankInFirstBoundary(b, text);

    var whole := p.headers + CRLF_CRLF + p.content;
    assert whole[2..] == c;
    AbsentInSuffix(whole, 2, NextHead(b));
    var tail := c + NextHead(b) + rest;
    assert text[2..] == tail && At(text, tail, 2);
    AtShift(body, n, text, tail, 2);
    DelimiterSearch(b, body, n + 2, c, rest);
  }

  lemma ContentStarts(b: string, body: string, beg: nat, end: nat)
    requires Find(body, CRLF_CRLF, 0) == Some(beg - 4) && Find(body, NextHead(b), beg) == Some(end)
    requires end + |NextHead(b)| <= |body|
    requires var tail := Substr(body, end + |NextHead(b)|, 2); tail == CRLF || tail == "--"
    ensures ContentFrom(b, body, 0, 1) != [] && ContentFrom(b, body, 0, 1)[0] == Content(1, beg, end)
  {
    hide Find, NextHead, Substr;
  }

  /** Such a part is reported with the rest of its headers in its content. */
  lemma EmptyLineShown(b: string, p: Part, rest: string)
    requires GoodBoundary(b) && HasName(p.headers) && At(p.headers, CRLF, 0)
    requires Absent(p.headers + CRLF_CRLF + p.content, NextHead(b))
    requires |rest| >= 2 && (rest[..2] == CRLF || rest[..2] == "--")
    ensures var body := FirstBoundary(b) + PartText(b, p, rest); var rs := Parse(b, body);
            && |rs| >= 2 && rs[1].Content? && InRange(body, rs[1])
            && Show(body, rs[1]) == FileContent(1, Overlong(p))
  {
    hide Find, NextHead, FirstBoundary, NameFrom, PartText, Absent, Overlong;
    var body, beg := FirstBoundary(b) + PartText(b, p, rest), |FirstBoundary(b)| + 2;
    OpeningSearch(b, PartText(b, p, rest));
    FirstNameFound(b, p, rest);
    EmptyLineSearches(b, p, rest);
    var end := beg + |Overlong(p)|;
    assert rest[..2] + rest[2..] == rest;
    SubstrOf(body, end + |NextHead(b)|, rest[..2], rest[2..]);
    ContentStarts(b, body, beg, end);
    assert Parse(b, body) == NameFrom(body, 0, 1) + ContentFrom(b, body, 0, 1);
  }

  /** When the first part's text does not contain the delimiter, the round trip succeeds if and only if
      its header block does not start with an empty line. */
  lemma RoundTripExactly(b: string, parts: seq<Part>, epilogue: string)
    requires GoodBoundary(b) && GoodParts(b, parts)
    requires Absent(parts[0].headers + CRLF_CRLF + parts[0].content, NextHead(b))
    ensures var body := Print(b, parts, epilogue);
            && AllInRange(body, Parse(b, body))
            && (ShowAll(body, Parse(b, body)) == Lines(parts, 0) <==> !At(parts[0].headers, CRLF, 0))
  {
    hide Find, NextHead, FirstBoundary, Parse, Show;
    var p, body := parts[0], Print(b, parts, epilogue);
    ParseInRange(b, body);
    if At(p.headers, CRLF, 0) {
      var rest := if |parts| == 1 then "--" + epilogue else CRLF + PrintParts(b, parts[1..], epilogue);
      assert body == FirstBoundary(b) + PartText(b, p, rest);
      EmptyLineShown(b, p, rest);
      assert |Overlong(p)| > |p.content|;
      assert ShowAll(body, Parse(b, body))[1] != Lines(parts, 0)[1];
    } else {
      RoundTrip(b, parts, epilogue);
    }
  }

  /** A part with nothing in it but an empty line and a file name. */
  const EMPTY_LINE_PART := Part("\r\nfilename=\"a\"", "")

  lemma EmptyLinePartIsNamed()
    ensures var h := EMPTY_LINE_PART.headers; HasName(h) && At(h, CRLF, 0) && !At(h, CRLF, |h| - 2)
  {
    hide Find;
    var h := EMPTY_LINE_PART.headers;
    assert At(h, FILENAME_HEAD, 2) && At(h, QUOTE, 13);
    NotAt(h, FILENAME_HEAD, 0, 0);
    NotAt(h, FILENAME_HEAD, 1, 0);
    NotAt(h, CRLF, |h| - 2, 0);
  }

  /** A text without a dash in it does not contain the delimiter, nor one with a single CR in front the
      blank line. */
  lemma DelimiterNeedsDash(s: string, b: string)
    requires '-' !in s
    ensures Absent(s, NextHead(b))
  {
    forall j ensures !At(s, NextHead(b), j) {
      if j >= 0 { NotAt(s, NextHead(b), j, 2); }
    }
  }

  lemma BlankLineNeedsCR(s: string)
    requires forall i :: 0 < i < |s| ==> s[i] != '\r'
    ensures Absent(s, CRLF_CRLF)
  {
    forall j ensures !At(s, CRLF_CRLF, j) {
      if j >= 0 { NotAt(s, CRLF_CRLF, j, 2); }
    }
  }

  /** With such a part the round trip fails. */
  lemma EmptyLineMisread(epilogue: string)
    ensures var b, parts := "b", [EMPTY_LINE_PART]; var body := Print(b, parts, epilogue);
            && GoodBoundary(b) && GoodParts(b, parts)
            && AllInRange(body, Parse(b, body)) && ShowAll(body, Parse(b, body)) != Lines(parts, 0)
  {
    hide Find, Parse, ShowAll, Lines, Print, At, HasName, Absent;
    var b, p := "b", EMPTY_LINE_PART;
    EmptyLinePartIsNamed();
    BlankLineNeedsCR(p.headers);
    DelimiterNeedsDash(p.content, b);
    DelimiterNeedsDash(p.headers + CRLF_CRLF + p.content, b);
    RoundTripExactly(b, [p], epilogue);
  }
}
