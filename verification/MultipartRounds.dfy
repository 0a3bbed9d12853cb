/** Exactly what the multipart parser reports, whatever the body: its rounds, told by the positions in the
    body at which each mark is first found. */
module MultipartRounds {
  import opened Text
  import opened Multipart

  ghost predicate First(s: string, p: string, from: nat, k: nat) {
    from <= k && At(s, p, k) && forall j :: from <= j < k ==> !At(s, p, j)
  }

  ghost predicate Nowhere(s: string, p: string, from: nat) {
    forall j :: from <= j ==> !At(s, p, j)
  }

  /** One round: where it starts, what it reports of a file's name and then of its content, and where the
      next one starts, if there is one. */
  datatype Round = Round(start: nat, name: seq<Report>, found: seq<Report>, next: Option<nat>)

  /** The first file name mark from `start` on is at `head`, and the quote that ends the name at `end`. */
  ghost predicate Quoted(body: string, start: nat, head: nat, end: nat) {
    First(body, "filename=\"", start, head) && First(body, "\"", head + 10, end)
  }

  ghost predicate NameFound(body: string, start: nat, index: nat, name: seq<Report>) {
    || (name == [] && forall head: nat, end: nat :: !Quoted(body, start, head, end))
    || (exists head: nat, end: nat :: Quoted(body, start, head, end) && name == [Name(index, head + 10, end)])
  }

  /** What comes after a round's blank line, which ends at `beg`: without a delimiter the next round starts
      there; a delimiter ends a content, and what stands behind it says whether there is more. */
  ghost predicate ContentFound(b: string, body: string, index: nat, beg: nat, r: Round) {
    var head := "\r\n--" + b;
    && (Nowhere(body, head, beg) ==> r.found == [] && r.next == Some(beg))
    && forall end: nat :: First(body, head, beg, end) ==>
         var next := end + |head|;
         if At(body, "\r\n", next) then r.found == [Content(index, beg, end)] && r.next == Some(next + 2)
         else if At(body, "--", next) then r.found == [Content(index, beg, end)] && r.next == None
         else r.found == [Invalid(body[end..if next + 2 <= |body| then next + 2 else |body|])] && r.next == None
  }

  ghost predicate IsRound(b: string, body: string, index: nat, r: Round) {
    && NameFound(body, r.start, index, r.name)
    && (Nowhere(body, "\r\n\r\n", r.start) ==> r.found == [] && r.next == None)
    && forall blank: nat :: First(body, "\r\n\r\n", r.start, blank) ==> ContentFound(b, body, index, blank + 4, r)
  }

  /** The rounds that follow when `index` of them are over. */
  ghost predicate AreRounds(b: string, body: string, from: Option<nat>, index: nat, rounds: seq<Round>)
    decreases |rounds|
  {
    if from.None? then rounds == [] else
      && rounds != [] && rounds[0].start == from.value
      && IsRound(b, body, index + 1, rounds[0])
      && AreRounds(b, body, rounds[0].next, index + 1, rounds[1..])
  }

  function ReportsOf(rounds: seq<Round>): seq<Report> {
    if rounds == [] then [] else rounds[0].name + rounds[0].found + ReportsOf(rounds[1..])
  }

  // ---------------------------------------------------------------------------------------------
  // The parser's rounds

  lemma FindIsFirst(s: string, p: string, from: nat)
    ensures Find(s, p, from).Some? ==> First(s, p, from, Find(s, p, from).value)
    ensures Find(s, p, from).None? <==> Nowhere(s, p, from)
  {
    hide Find, At;
  }

  lemma FirstIsUnique(s: string, p: string, from: nat, k: nat)
    requires First(s, p, from, k)
    ensures Find(s, p, from) == Some(k) && !Nowhere(s, p, from)
  {
    hide Find, At;
    FindIsFirst(s, p, from);
    assert At(s, p, k);
  }

  lemma NameIsFound(body: string, start: nat, index: nat)
    ensures NameFound(body, start, index, NameFrom(body, start, index))
  {
    hide Find, At, First, Nowhere;
    var head := Find(body, FILENAME_HEAD, start);
    FindIsFirst(body, FILENAME_HEAD, start);
    if head.Some? {
      FindIsFirst(body, QUOTE, head.value + 10);
      if Find(body, QUOTE, head.value + 10).Some? {
        assert Quoted(body, start, head.value, Find(body, QUOTE, head.value + 10).value);
      }
    }
    forall h: nat, e: nat | Quoted(body, start, h, e)
      ensures Find(body, FILENAME_HEAD, start) == Some(h) && Find(body, QUOTE, h + 10) == Some(e)
    {
      FirstIsUnique(body, FILENAME_HEAD, start, h);
      FirstIsUnique(body, QUOTE, h + 10, e);
    }
  }

  /** What stands behind a delimiter. */
  lemma TailIs(body: string, next: nat, tail: string)
    requires next <= |body| && |tail| == 2
    ensures Substr(body, next, 2) == tail <==> At(body, tail, next)
    ensures Substr(body, next, 2) == body[next..if next + 2 <= |body| then next + 2 else |body|]
  {
  }

  function RoundAt(b: string, body: string, pos: nat, index: nat): (r: Round)
    requires pos <= |body|
    ensures r.next.Some? ==> pos < r.next.value <= |body|
  {
    var name := NameFrom(body, pos, index);
    match Find(body, CRLF_CRLF, pos)
    case None => Round(pos, name, [], None)
    case Some(blank) =>
      var beg := blank + 4;
      match Find(body, NextHead(b), beg)
      case None => Round(pos, name, [], Some(beg))
      case Some(end) =>
        var next := end + |NextHead(b)|;
        var tail := Substr(body, next, 2);
        if tail == CRLF then Round(pos, name, [Content(index, beg, end)], Some(next + 2))
        else if tail == "--" then Round(pos, name, [Content(index, beg, end)], None)
        else Round(pos, name, [Invalid(NextHead(b) + tail)], None)
  }

  lemma RoundAtStart(b: string, body: string, pos: nat, index: nat)
    ensures pos <= |body| ==> RoundAt(b, body, pos, index).start == pos
  {
    hide Find, NameFrom, Substr, NextHead;
  }

  /** A delimiter at `end`, and the two characters behind it. */
  lemma DelimiterAt(b: string, body: string, beg: nat, end: nat)
    requires Find(body, NextHead(b), beg) == Some(end)
    ensures var next := end + |NextHead(b)|;
            && next <= |body| && First(body, NextHead(b), beg, end)
            && body[end..if next + 2 <= |body| then next + 2 else |body|] == NextHead(b) + Substr(body, next, 2)
  {
    hide Find;
    var next := end + |NextHead(b)|;
    TailIs(body, next, "--");
    var stop := if next + 2 <= |body| then next + 2 else |body|;
    assert body[end..next] == NextHead(b);
    assert body[end..stop] == body[end..next] + body[next..stop];
  }

  lemma ContentIsFound(b: string, body: string, pos: nat, index: nat, blank: nat)
    requires pos <= |body| && Find(body, CRLF_CRLF, pos) == Some(blank)
    ensures ContentFound(b, body, index, blank + 4, RoundAt(b, body, pos, index))
  {
    hide Find, First, Nowhere, NameFrom, Substr, At;
    var head, beg := NextHead(b), blank + 4;
    assert head == "\r\n--" + b;
    FindIsFirst(body, head, beg);
    if Find(body, head, beg).Some? {
      var end := Find(body, head, beg).value;
      var next := end + |head|;
      DelimiterAt(b, body, beg, end);
      TailIs(body, next, "\r\n");
      TailIs(body, next, "--");
      FirstIsUnique(body, head, beg, end);
    }
    forall e: nat | First(body, head, beg, e) ensures Find(body, head, beg) == Some(e) {
      FirstIsUnique(body, head, beg, e);
    }
  }

  lemma RoundIsRound(b: string, body: string, pos: nat, index: nat)
    requires pos <= |body|
    ensures IsRound(b, body, index, RoundAt(b, body, pos, index))
  {
    hide Find, First, Nowhere, NameFrom, Substr, ContentFound, NameFound;
    NameIsFound(body, pos, index);
    FindIsFirst(body, CRLF_CRLF, pos);
    forall blank: nat | First(body, CRLF_CRLF, pos, blank)
      ensures ContentFound(b, body, index, blank + 4, RoundAt(b, body, pos, index))
    {
      FirstIsUnique(body, CRLF_CRLF, pos, blank);
      ContentIsFound(b, body, pos, index, blank);
    }
  }

  lemma RoundReports(b: string, body: string, pos: nat, index: nat)
    requires pos <= |body|
    ensures var r := RoundAt(b, body, pos, index + 1);
            ParseFrom(b, body, pos, index) ==
            r.name + r.found + (if r.next.Some? then ParseFrom(b, body, r.next.value, index + 1) else [])
  {
    hide Find, NameFrom, Substr;
  }

  lemma {:induction false} RoundsOf(b: string, body: string, pos: nat, index: nat) returns (rounds: seq<Round>)
    requires pos <= |body|
    ensures AreRounds(b, body, Some(pos), index, rounds)
    ensures ParseFrom(b, body, pos, index) == ReportsOf(rounds)
    decreases |body| - pos
  {
    hide RoundAt, ParseFrom, IsRound;
    var r := RoundAt(b, body, pos, index + 1);
    RoundAtStart(b, body, pos, index + 1);
    RoundIsRound(b, body, pos, index + 1);
    RoundReports(b, body, pos, index);
    var later := [];
    if r.next.Some? {
      later := RoundsOf(b, body, r.next.value, index + 1);
    }
    rounds := [r] + later;
    assert rounds[1..] == later;
  }

  /** The parser's rounds are the only ones: nothing is left open. */
  lemma RoundIsUnique(b: string, body: string, index: nat, r: Round)
    requires r.start <= |body| && IsRound(b, body, index, r)
    ensures r == RoundAt(b, body, r.start, index)
  {
    hide Find, First, Nowhere, Substr, ContentFound, NameFound, RoundAt;
    var q := RoundAt(b, body, r.start, index);
    RoundAtStart(b, body, r.start, index);
    RoundIsRound(b, body, r.start, index);
    NameIsUnique(body, r.start, index, q.name, r.name);
    FindIsFirst(body, CRLF_CRLF, r.start);
    if Find(body, CRLF_CRLF, r.start).Some? {
      ContentIsUnique(b, body, index, Find(body, CRLF_CRLF, r.start).value + 4, q, r);
    }
  }

  lemma NameIsUnique(body: string, start: nat, index: nat, xs: seq<Report>, ys: seq<Report>)
    requires NameFound(body, start, index, xs) && NameFound(body, start, index, ys)
    ensures xs == ys
  {
    hide First, Find;
    forall h: nat, e: nat | Quoted(body, start, h, e)
      ensures Find(body, FILENAME_HEAD, start) == Some(h) && Find(body, QUOTE, h + 10) == Some(e)
    {
      FirstIsUnique(body, FILENAME_HEAD, start, h);
      FirstIsUnique(body, QUOTE, h + 10, e);
    }
  }

  lemma ContentIsUnique(b: string, body: string, index: nat, beg: nat, q: Round, r: Round)
    requires ContentFound(b, body, index, beg, q) && ContentFound(b, body, index, beg, r)
    ensures q.found == r.found && q.next == r.next
  {
    hide First, Nowhere, Find;
    var head := "\r\n--" + b;
    FindIsFirst(body, head, beg);
    if Find(body, head, beg).Some? {
      assert First(body, head, beg, Find(body, head, beg).value);
    }
  }

  /** On every body the parser does nothing without the first boundary, and from there reports what its
      rounds report, in order; and its rounds are fixed by the body alone. */
  lemma ParseExactly(b: string, body: string) returns (rounds: seq<Round>)
    ensures Nowhere(body, "--" + b + "\r\n", 0) ==> Parse(b, body) == []
    ensures forall pos: nat :: First(body, "--" + b + "\r\n", 0, pos) ==>
              AreRounds(b, body, Some(pos), 0, rounds) && Parse(b, body) == ReportsOf(rounds)
  {
    hide Find, At, AreRounds, ReportsOf, ParseFrom;
    var mark := FirstBoundary(b);
    assert mark == "--" + b + "\r\n";
    FindIsFirst(body, mark, 0);
    rounds := [];
    if Find(body, mark, 0).Some? {
      FindInRange(body, mark, 0);
      rounds := RoundsOf(b, body, Find(body, mark, 0).value, 0);
    }
    forall pos: nat | First(body, mark, 0, pos) ensures Find(body, mark, 0) == Some(pos) {
      FirstIsUnique(body, mark, 0, pos);
    }
  }

  lemma {:induction false} RoundsAreUnique(b: string, body: string, from: Option<nat>, index: nat,
                                           xs: seq<Round>, ys: seq<Round>)
    requires from.Some? ==> from.value <= |body|
    requires AreRounds(b, body, from, index, xs) && AreRounds(b, body, from, index, ys)
    ensures xs == ys
    decreases |xs|
  {
    hide IsRound, RoundAt;
    if from.Some? {
      RoundIsUnique(b, body, index + 1, xs[0]);
      RoundIsUnique(b, body, index + 1, ys[0]);
      RoundsAreUnique(b, body, xs[0].next, index + 1, xs[1..], ys[1..]);
    }
  }

  // ---------------------------------------------------------------------------------------------
  // The stall

  /** Rounds that report names only: each but the last ends at the next blank line, and none follows the
      last. */
  ghost predicate Stalled(body: string, index: nat, rounds: seq<Round>) {
    && rounds != []
    && (forall k :: 0 <= k < |rounds| ==>
          rounds[k].found == [] && NameFound(body, rounds[k].start, index + 1 + k, rounds[k].name))
    && (forall k :: 0 < k < |rounds| ==>
          4 <= rounds[k].start && First(body, "\r\n\r\n", rounds[k - 1].start, rounds[k].start - 4))
    && Nowhere(body, "\r\n\r\n", rounds[|rounds| - 1].start)
  }

  lemma StalledRound(b: string, body: string, index: nat, r: Round)
    requires IsRound(b, body, index, r) && Nowhere(body, "\r\n--" + b, r.start)
    ensures r.found == []
    ensures if r.next.None? then Nowhere(body, "\r\n\r\n", r.start)
            else 4 <= r.next.value && First(body, "\r\n\r\n", r.start, r.next.value - 4)
  {
    hide Find, At, NameFound;
    var blank := Find(body, "\r\n\r\n", r.start);
    FindIsFirst(body, "\r\n\r\n", r.start);
    if blank.Some? {
      assert Nowhere(body, "\r\n--" + b, blank.value + 4);
    }
  }

  lemma {:induction false} StalledRounds(b: string, body: string, pos: nat, index: nat, rounds: seq<Round>)
    requires AreRounds(b, body, Some(pos), index, rounds) && Nowhere(body, "\r\n--" + b, pos)
    ensures Stalled(body, index, rounds)
    decreases |rounds|
  {
    hide First, NameFound, At;
    var r := rounds[0];
    StalledRound(b, body, index + 1, r);
    hide IsRound;
    if r.next.Some? {
      var later := rounds[1..];
      assert pos <= r.next.value by { StartsLater(body, pos, r.next.value); }
      StalledRounds(b, body, r.next.value, index + 1, later);
      forall k | 0 < k < |rounds|
        ensures rounds[k].found == [] && NameFound(body, rounds[k].start, index + 1 + k, rounds[k].name)
        ensures 4 <= rounds[k].start && First(body, "\r\n\r\n", rounds[k - 1].start, rounds[k].start - 4)
      {
        assert later[k - 1] == rounds[k];
        if k > 1 { assert later[k - 2] == rounds[k - 1]; }
      }
    }
  }

  lemma StartsLater(body: string, from: nat, next: nat)
    requires 4 <= next && First(body, "\r\n\r\n", from, next - 4)
    ensures from <= next
  {
  }

  /** Once no delimiter follows, the parser goes on from blank line to blank line, and reports at each the
      first quoted name from there on, if there is one, under the next number; and nothing else. */
  lemma StallReportsNames(b: string, body: string, pos: nat, index: nat) returns (rounds: seq<Round>)
    requires pos <= |body| && Nowhere(body, "\r\n--" + b, pos)
    ensures Stalled(body, index, rounds) && rounds[0].start == pos
    ensures ParseFrom(b, body, pos, index) == ReportsOf(rounds)
  {
    hide Stalled, ReportsOf, ParseFrom, Nowhere;
    rounds := RoundsOf(b, body, pos, index);
    StalledRounds(b, body, pos, index, rounds);
  }
}
