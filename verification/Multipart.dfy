/** The multipart/form-data parser of the test service. */
module Multipart {
  import opened Text

  const CRLF := "\r\n"
  const CRLF_CRLF := "\r\n\r\n"
  const FILENAME_HEAD := "filename=\""
  const QUOTE := "\""

  function FirstBoundary(b: string): string { "--" + b + CRLF }

  function NextHead(b: string): string { CRLF + "--" + b }

  /** What the parser reports: stretches of the body, and the delimiter it could not make sense of. */
  datatype Report =
    | Name(index: nat, beg: nat, end: nat)
    | Content(index: nat, beg: nat, end: nat)
    | Invalid(boundary: string)

  /** The file name reported when the search for it starts at `pos`. */
  function NameFrom(body: string, pos: nat, index: nat): seq<Report> {
    match Find(body, FILENAME_HEAD, pos)
    case None => []
    case Some(head) =>
      var beg := head + |FILENAME_HEAD|;
      match Find(body, QUOTE, beg)
      case None => []
      case Some(end) => [Name(index, beg, end)]
  }

  /** What is reported from position `pos` on, `index` files having been seen. */
  function ParseFrom(b: string, body: string, pos: nat, index: nat): seq<Report>
    requires pos <= |body|
    decreases |body| - pos, 1
  {
    NameFrom(body, pos, index + 1) + ContentFrom(b, body, pos, index + 1)
  }

  /** What is reported after the name of file `index`. */
  function ContentFrom(b: string, body: string, pos: nat, index: nat): seq<Report>
    requires pos <= |body|
    decreases |body| - pos, 0
  {
    match Find(body, CRLF_CRLF, pos)
    case None => []
    case Some(blank) =>
      var beg := blank + |CRLF_CRLF|;
      match Find(body, NextHead(b), beg)
      case None => ParseFrom(b, body, beg, index)
      case Some(end) =>
        var tail := Substr(body, end + |NextHead(b)|, 2);
        if tail == CRLF then [Content(index, beg, end)] + ParseFrom(b, body, end + |NextHead(b)| + 2, index)
        else if tail == "--" then [Content(index, beg, end)]
        else [Invalid(NextHead(b) + tail)]
  }

  function Parse(b: string, body: string): seq<Report> {
    match Find(body, FirstBoundary(b), 0)
    case None => []
    case Some(pos) => ParseFrom(b, body, pos, 0)
  }

  /** What the loop has still to report. */
  function Remaining(b: string, body: string, pos: Option<nat>, index: nat): seq<Report>
    requires pos.Some? ==> pos.value <= |body|
  {
    if pos.Some? then ParseFrom(b, body, pos.value, index) else []
  }

  lemma Associative<T>(a: seq<T>, b: seq<T>, c: seq<T>)
    ensures a + b + c == a + (b + c)
  {
  }

  lemma SameTail(head: string, x: string, y: string)
    ensures head + x == head + y <==> x == y
  {
    assert (head + x)[|head|..] == x && (head + y)[|head|..] == y;
  }

  lemma FindInRange(s: string, p: string, from: nat)
    ensures Find(s, p, from).Some? ==> from <= Find(s, p, from).value <= |s| - |p|
  {
  }

  lemma NameComesFirst(b: string, body: string, before: seq<Report>, pos: nat, index: nat)
    requires pos <= |body|
    ensures before + NameFrom(body, pos, index + 1) + ContentFrom(b, body, pos, index + 1) ==
            before + Remaining(b, body, Some(pos), index)
  {
    Associative(before, NameFrom(body, pos, index + 1), ContentFrom(b, body, pos, index + 1));
  }

  /** The first third of the parser's loop. */
  method ReportName(body: string, filePosBeg: nat, fileIndex: nat) returns (reports: seq<Report>)
    ensures reports == NameFrom(body, filePosBeg, fileIndex)
  {
    reports := [];
    var filenamePosBeg := Find(body, FILENAME_HEAD, filePosBeg);
    if filenamePosBeg.Some? {
      var beg := filenamePosBeg.value + |FILENAME_HEAD|;
      var filenamePosEnd := Find(body, QUOTE, beg);
      if filenamePosEnd.Some? {
        reports := [Name(fileIndex, beg, filenamePosEnd.value)];
      }
    }
  }

  method ParseFileBody(boundary: string, body: string) returns (reports: seq<Report>)
    ensures reports == Parse(boundary, body)
  {
    hide Find, At, NextHead, FirstBoundary, NameFrom, ParseFrom;
    var firstBoundary := FirstBoundary(boundary);
    var nextBoundaryHead := NextHead(boundary);
    var middleBoundary := nextBoundaryHead + CRLF;
    var lastBoundary := nextBoundaryHead + "--";
    reports := [];
    FindInRange(body, firstBoundary, 0);
    var filePosBeg := Find(body, firstBoundary, 0);
    var fileIndex := 0;
    while filePosBeg.Some?
      invariant filePosBeg.Some? ==> filePosBeg.value <= |body|
      invariant Parse(boundary, body) ==
                reports + Remaining(boundary, body, filePosBeg, fileIndex)
      decreases if filePosBeg.Some? then |body| - filePosBeg.value + 1 else 0
    {
      fileIndex := fileIndex + 1;

      var name := ReportName(body, filePosBeg.value, fileIndex);
      ghost var todo := ContentFrom(boundary, body, filePosBeg.value, fileIndex);
      NameComesFirst(boundary, body, reports, filePosBeg.value, fileIndex - 1);
      reports := reports + name;
      assert reports + todo == Parse(boundary, body);

      FindInRange(body, CRLF_CRLF, filePosBeg.value);
      filePosBeg := Find(body, CRLF_CRLF, filePosBeg.value);
      if filePosBeg.None? {
        assert todo == Remaining(boundary, body, None, fileIndex);
        continue;
      }
      filePosBeg := Some(filePosBeg.value + |CRLF_CRLF|);

      FindInRange(body, nextBoundaryHead, filePosBeg.value);
      var filePosEnd := Find(body, nextBoundaryHead, filePosBeg.value);
      if filePosEnd.None? {
        assert todo == Remaining(boundary, body, filePosBeg, fileIndex);
        continue;
      }

      var nextBoundaryTail := Substr(body, filePosEnd.value + |nextBoundaryHead|, 2);
      var nextBoundary := nextBoundaryHead + nextBoundaryTail;
      SameTail(nextBoundaryHead, nextBoundaryTail, CRLF);
      SameTail(nextBoundaryHead, nextBoundaryTail, "--");
      if nextBoundary == middleBoundary {
        Associative(reports, [Content(fileIndex, filePosBeg.value, filePosEnd.value)],
                    ParseFrom(boundary, body, filePosEnd.value + |middleBoundary|, fileIndex));
        reports := reports + [Content(fileIndex, filePosBeg.value, filePosEnd.value)];
        filePosBeg := Some(filePosEnd.value + |middleBoundary|);
      } else if nextBoundary == lastBoundary {
        reports := reports + [Content(fileIndex, filePosBeg.value, filePosEnd.value)];
        break;
      } else {
        reports := reports + [Invalid(nextBoundary)];
        break;
      }
    }
  }

  // ---------------------------------------------------------------------------------------------
  // Any body

  predicate SoundName(body: string, r: Report) {
    r.Name? ==>
      && |FILENAME_HEAD| <= r.beg <= r.end
      && At(body, FILENAME_HEAD, r.beg - |FILENAME_HEAD|) && At(body, QUOTE, r.end)
      && forall j :: r.beg <= j < r.end ==> !At(body, QUOTE, j)
  }

  /** A reported content lies between a blank line and the first delimiter after it. */
  predicate SoundContent(b: string, body: string, from: nat, index: nat, r: Report) {
    r.Content? ==>
      && index < r.index
      && from + |CRLF_CRLF| <= r.beg <= r.end
      && At(body, CRLF_CRLF, r.beg - |CRLF_CRLF|) && At(body, NextHead(b), r.end)
      && forall j :: r.beg <= j < r.end ==> !At(body, NextHead(b), j)
  }

  /** The earlier content ends, delimiter and line end included, before the later one's blank line. */
  predicate Apart(b: string, earlier: Report, later: Report) {
    earlier.Content? && later.Content? ==>
      earlier.index < later.index && earlier.end + |NextHead(b)| + 2 + |CRLF_CRLF| <= later.beg
  }

  predicate Sound(b: string, body: string, from: nat, index: nat, rs: seq<Report>) {
    && (forall r :: r in rs ==> SoundName(body, r) && SoundContent(b, body, from, index, r))
    && (forall i, j :: 0 <= i < j < |rs| ==> Apart(b, rs[i], rs[j]))
  }

  lemma SoundLater(b: string, body: string, from: nat, index: nat, later: nat, index': nat, rs: seq<Report>)
    requires Sound(b, body, later, index', rs) && from <= later && index <= index'
    ensures Sound(b, body, from, index, rs)
  {
    hide At, NextHead, Apart, SoundName;
    forall r | r in rs ensures SoundName(body, r) && SoundContent(b, body, from, index, r) {
      assert SoundContent(b, body, later, index', r);
    }
  }

  lemma SoundJoin(b: string, body: string, from: nat, index: nat, xs: seq<Report>, ys: seq<Report>)
    requires Sound(b, body, from, index, xs) && Sound(b, body, from, index, ys)
    requires forall x, y :: x in xs && y in ys ==> Apart(b, x, y)
    ensures Sound(b, body, from, index, xs + ys)
  {
    hide SoundName, SoundContent, Apart;
    var zs := xs + ys;
    forall i, j | 0 <= i < j < |zs| ensures Apart(b, zs[i], zs[j]) {
      if j < |xs| {
        assert Apart(b, xs[i], xs[j]);
      } else if i < |xs| {
        assert zs[i] in xs && zs[j] in ys;
      } else {
        assert Apart(b, ys[i - |xs|], ys[j - |xs|]);
      }
    }
  }

  lemma SoundUnderName(b: string, body: string, pos: nat, index: nat, rs: seq<Report>)
    requires Sound(b, body, pos, index, rs)
    ensures Sound(b, body, pos, index, NameFrom(body, pos, index + 1) + rs)
  {
    hide Sound;
    NameIsSound(b, body, pos, index);
    SoundJoin(b, body, pos, index, NameFrom(body, pos, index + 1), rs);
  }

  lemma NameIsSound(b: string, body: string, pos: nat, index: nat)
    ensures Sound(b, body, pos, index, NameFrom(body, pos, index + 1))
    ensures forall r :: r in NameFrom(body, pos, index + 1) ==> r.Name?
  {
    hide Find;
  }

  lemma {:induction false} ParseFromSound(b: string, body: string, pos: nat, index: nat)
    requires pos <= |body|
    ensures Sound(b, body, pos, index, ParseFrom(b, body, pos, index))
    decreases |body| - pos
  {
    hide Find, NameFrom, Sound;
    var blank := Find(body, CRLF_CRLF, pos);
    if blank.Some? {
      var beg := blank.value + |CRLF_CRLF|;
      var end := Find(body, NextHead(b), beg);
      if end.None? {
        ParseFromSound(b, body, beg, index + 1);
        SoundLater(b, body, pos, index, beg, index + 1, ParseFrom(b, body, beg, index + 1));
      } else {
        ContentIsSound(b, body, pos, index, beg, end.value);
        if Substr(body, end.value + |NextHead(b)|, 2) == CRLF {
          var next := end.value + |NextHead(b)| + 2;
          var rest := ParseFrom(b, body, next, index + 1);
          ParseFromSound(b, body, next, index + 1);
          LaterIsApart(b, body, next, index + 1, beg, end.value, rest);
          SoundLater(b, body, pos, index, next, index + 1, rest);
          SoundJoin(b, body, pos, index, [Content(index + 1, beg, end.value)], rest);
        }
      }
    } else {
      NothingIsSound(b, body, pos, index);
    }
    SoundUnderName(b, body, pos, index, ContentFrom(b, body, pos, index + 1));
  }

  lemma ContentIsSound(b: string, body: string, pos: nat, index: nat, beg: nat, end: nat)
    requires Find(body, CRLF_CRLF, pos) == Some(beg - |CRLF_CRLF|) && Find(body, NextHead(b), beg) == Some(end)
    ensures Sound(b, body, pos, index, [Content(index + 1, beg, end)])
    ensures forall boundary :: Sound(b, body, pos, index, [Invalid(boundary)])
  {
    hide Find;
  }

  lemma LaterIsApart(b: string, body: string, next: nat, index: nat, beg: nat, end: nat, rest: seq<Report>)
    requires Sound(b, body, next, index, rest) && next == end + |NextHead(b)| + 2
    ensures forall r :: r in rest ==> Apart(b, Content(index, beg, end), r)
  {
    hide At;
    forall r | r in rest ensures Apart(b, Content(index, beg, end), r) {
      assert SoundContent(b, body, next, index, r);
    }
  }

  /** Whatever the body: reported contents come in order, do not overlap, and are each preceded by a
      blank line and ended by the first delimiter that follows. */
  lemma ReportsAreSound(b: string, body: string)
    ensures Sound(b, body, 0, 0, Parse(b, body))
  {
    hide Sound;
    var pos := Find(body, FirstBoundary(b), 0);
    if pos.Some? {
      ParseFromSound(b, body, pos.value, 0);
      SoundLater(b, body, 0, 0, pos.value, 0, ParseFrom(b, body, pos.value, 0));
    } else {
      NothingIsSound(b, body, 0, 0);
    }
  }

  lemma NothingIsSound(b: string, body: string, pos: nat, index: nat)
    ensures Sound(b, body, pos, index, [])
  {
  }

  /** Once no delimiter follows, only file names are reported. */
  lemma {:induction false} StalledParse(b: string, body: string, pos: nat, index: nat)
    requires pos <= |body| && Find(body, NextHead(b), pos).None?
    ensures forall r :: r in ParseFrom(b, body, pos, index) ==> r.Name?
    decreases |body| - pos
  {
    var blank := Find(body, CRLF_CRLF, pos);
    if blank.Some? {
      var beg := blank.value + |CRLF_CRLF|;
      assert Find(body, NextHead(b), beg).None?;
      StalledParse(b, body, beg, index + 1);
    }
  }
}
