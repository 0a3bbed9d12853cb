/** How one HTTP request is answered: the guard on its target, the branches, and keep-alive. */
module HttpUtility {
  import opened Text

  // ---------------------------------------------------------------------------------------------
  // The guard on the target

  function Replaced(s: string, from: char, to: char): (r: string)
    ensures |r| == |s|
    ensures forall i :: 0 <= i < |s| ==> r[i] == if s[i] == from then to else s[i]
  {
    if s == "" then "" else [if s[0] == from then to else s[0]] + Replaced(s[1..], from, to)
  }

  const PARENT := "/../"

  predicate Illegal(target: string) {
    || target == ""
    || target[0] != '/'
    || Find(Replaced(target + "/", '\\', '/'), PARENT, 0).Some?
  }

  predicate Separator(c: char) {
    c == '/' || c == '\\'
  }

  /** The length of the first segment. */
  function Cut(s: string): (k: nat)
    ensures k <= |s| && (k < |s| ==> Separator(s[k]))
    ensures forall i :: 0 <= i < k ==> !Separator(s[i])
  {
    if s == "" || Separator(s[0]) then 0 else 1 + Cut(s[1..])
  }

  /** The segments left by cutting at every separator. */
  function Segments(s: string): seq<string>
    decreases |s|
  {
    var k := Cut(s);
    if k == |s| then [s] else [s[..k]] + Segments(s[k + 1..])
  }

  function Framed(s: string): string {
    "/" + Replaced(s, '\\', '/') + "/"
  }

  ghost predicate Climbs(s: string) {
    exists i :: At(Framed(s), PARENT, i)
  }

  lemma FramedChars(s: string)
    ensures |Framed(s)| == |s| + 2
    ensures forall i :: 0 <= i < |s| + 2 ==>
              Framed(s)[i] == if i == 0 || i == |s| + 1 || s[i - 1] == '\\' then '/' else s[i - 1]
  {
    hide Replaced;
  }

  /** An occurrence at the very front is a first segment "..". */
  lemma ClimbsAtFront(s: string)
    ensures At(Framed(s), PARENT, 0) <==> s[..Cut(s)] == ".."
  {
    hide Framed, Cut;
    var f, k := Framed(s), Cut(s);
    FramedChars(s);
    if k == 2 {
      AtChars(f, PARENT, 0);
      assert f[1] == s[0] && f[2] == s[1] && f[3] == '/';
      assert s[..k] == [s[0], s[1]];
    } else if k < 2 {
      NotAt(f, PARENT, 0, k + 1);
    } else {
      NotAt(f, PARENT, 0, 3);
    }
  }

  /** No occurrence starts inside the first segment. */
  lemma NoClimbInside(s: string, i: nat)
    requires 0 < i <= Cut(s)
    ensures !At(Framed(s), PARENT, i)
  {
    hide Framed, Cut;
    FramedChars(s);
    NotAt(Framed(s), PARENT, i, 0);
  }

  /** Past the first segment, the rest stands framed by its own separators. */
  lemma FramedRest(s: string)
    requires Cut(s) < |s|
    ensures At(Framed(s), Framed(s[Cut(s) + 1..]), Cut(s) + 1)
  {
    hide Framed, Cut, At;
    var k := Cut(s);
    var f, g := Framed(s), Framed(s[k + 1..]);
    FramedChars(s);
    FramedChars(s[k + 1..]);
    AtChars(f, g, k + 1);
  }

  lemma FramedLength(s: string)
    ensures |Framed(s)| == |s| + 2
  {
  }

  lemma ClimbsInOne(s: string)
    requires Cut(s) == |s|
    ensures Climbs(s) <==> s == ".."
  {
    hide Framed, Cut;
    var f := Framed(s);
    ClimbsAtFront(s);
    FramedLength(s);
    assert s[..|s|] == s;
    forall i | At(f, PARENT, i) ensures i == 0 {
      if 0 < i <= |s| { NoClimbInside(s, i); }
    }
  }

  lemma ClimbsAt(s: string, i: int)
    requires At(Framed(s), PARENT, i)
    ensures Climbs(s)
  {
  }

  lemma ClimbsWhere(s: string) returns (i: int)
    requires Climbs(s)
    ensures At(Framed(s), PARENT, i) && 0 <= i <= |s| - 2
  {
    i :| At(Framed(s), PARENT, i);
    FramedLength(s);
  }

  /** What climbs behind the first segment climbs, and the other way round. */
  lemma ClimbsInRest(s: string, i: int)
    requires Cut(s) < |s| && 0 <= i <= |s| - Cut(s) - 3
    ensures At(Framed(s), PARENT, Cut(s) + 1 + i) <==> At(Framed(s[Cut(s) + 1..]), PARENT, i)
  {
    hide Framed, Cut, At;
    FramedRest(s);
    FramedLength(s[Cut(s) + 1..]);
    AtShift(Framed(s), Cut(s) + 1, Framed(s[Cut(s) + 1..]), PARENT, i);
  }

  lemma ClimbsBehind(s: string)
    requires Cut(s) < |s|
    ensures Climbs(s) <==> s[..Cut(s)] == ".." || Climbs(s[Cut(s) + 1..])
  {
    hide Framed, Cut, At, Climbs;
    var k := Cut(s);
    ClimbsAtFront(s);
    if s[..k] == ".." { ClimbsAt(s, 0); }
    if Climbs(s[k + 1..]) {
      var i := ClimbsWhere(s[k + 1..]);
      ClimbsInRest(s, i);
      ClimbsAt(s, k + 1 + i);
    }
    if Climbs(s) {
      var i := ClimbsWhere(s);
      if 0 < i <= k {
        NoClimbInside(s, i);
      } else if k < i {
        ClimbsInRest(s, i - k - 1);
        ClimbsAt(s[k + 1..], i - k - 1);
      }
    }
  }

  lemma {:induction false} ClimbsExactly(s: string)
    ensures Climbs(s) <==> ".." in Segments(s)
    decreases |s|
  {
    hide Climbs, Cut;
    if Cut(s) == |s| {
      ClimbsInOne(s);
    } else {
      ClimbsBehind(s);
      ClimbsExactly(s[Cut(s) + 1..]);
    }
  }

  /** The guard lets a target through exactly when it starts with a slash and no segment of it, cut at
      slashes of either kind, is "..". */
  lemma GuardExactly(target: string)
    ensures !Illegal(target) <==> target != "" && target[0] == '/' && ".." !in Segments(target)
  {
    if target != "" && target[0] == '/' {
      var rest := target[1..];
      assert Cut(target) == 0;
      assert Segments(target) == [""] + Segments(rest);
      ClimbsExactly(rest);
      var r := Replaced(target + "/", '\\', '/');
      assert r == Framed(rest) by {
        assert |r| == |Framed(rest)|;
        forall i | 0 <= i < |r| ensures r[i] == Framed(rest)[i] {
          if 0 < i < |r| - 1 {
            assert (target + "/")[i] == rest[i - 1];
          }
        }
      }
    }
  }

  // ---------------------------------------------------------------------------------------------
  // The answer

  /** `verb` is the position in Beast's list of verbs: get is 2, head 3, connect 6. */
  datatype Request = Request(verb: nat, verbName: string, target: string, keepAlive: bool)

  datatype File = Missing | Unreadable(message: string) | Readable(size: nat)

  /** What the application and the file system say when asked about this request. */
  datatype Site = Site(isPath: bool, file: File, status: nat, text: string)

  datatype Body = Html(text: string) | NoBody(size: nat) | FileBody(size: nat)

  datatype Response = Response(status: nat, keepAlive: bool, body: Body)

  const GET := 2
  const HEAD := 3
  const CONNECT := 6

  function BadRequest(req: Request, why: string): Response {
    Response(400, req.keepAlive, Html(why))
  }

  function HandleRequest(req: Request, site: Site): (r: Response)
    ensures r.keepAlive == req.keepAlive
  {
    if Illegal(req.target) then
      BadRequest(req, "Illegal request-target '" + req.target + "'")
    else if site.isPath then
      match site.file
      case Missing => Response(404, req.keepAlive, Html("The resource '" + req.target + "' was not found"))
      case Unreadable(message) => Response(500, req.keepAlive, Html("An error occurred: '" + message + "'"))
      case Readable(size) =>
        if req.verb == HEAD then Response(200, req.keepAlive, NoBody(size))
        else if req.verb == GET then Response(200, req.keepAlive, FileBody(size))
        else BadRequest(req, "Unsupported HTTP-method '" + req.verbName + "' while request file")
    else if CONNECT < req.verb then
      BadRequest(req, "Unsupported HTTP-method '" + req.verbName + "'")
    else
      Response(site.status, req.keepAlive, Html(site.text))
  }

  /** The target starts with a slash, and climbs nowhere. */
  predicate Passes(target: string) {
    target != "" && target[0] == '/' && ".." !in Segments(target)
  }

  /** What the file system holds shows in an answer only for a target that the guard lets through and
      the application takes for a path; and a file's bytes are sent only to a GET of such a target. */
  lemma FilesBehindTheGuard(req: Request, site: Site, file: File)
    ensures HandleRequest(req, site) != HandleRequest(req, site.(file := file)) ==> site.isPath && Passes(req.target)
    ensures HandleRequest(req, site).body.FileBody? <==>
              Passes(req.target) && site.isPath && site.file.Readable? && req.verb == 2
  {
    GuardExactly(req.target);
  }

  /** The application is asked about exactly the targets that pass the guard and are not paths, for verbs up
      to CONNECT: then the answer is its own, and otherwise it has no say in the answer. */
  lemma ApplicationAnswersExactly(req: Request, site: Site, status: nat, text: string)
    ensures var asked := Passes(req.target) && !site.isPath && req.verb <= 6;
            && (asked ==> HandleRequest(req, site) == Response(site.status, req.keepAlive, Html(site.text)))
            && (!asked ==> HandleRequest(req, site) == HandleRequest(req, site.(status := status, text := text)))
  {
    GuardExactly(req.target);
  }

  /** The answers that are not the application's: which input gets which, and what it is told. */
  lemma ErrorsExactly(req: Request, site: Site)
    requires !(Passes(req.target) && !site.isPath && req.verb <= 6)
    ensures var r := HandleRequest(req, site); var passes := Passes(req.target);
            && (r.status == 400 <==>
                  || !passes
                  || !site.isPath
                  || (site.file.Readable? && req.verb != 2 && req.verb != 3))
            && (r.status == 404 <==> passes && site.isPath && site.file.Missing?)
            && (r.status == 500 <==> passes && site.isPath && site.file.Unreadable?)
            && (r.status == 200 <==> passes && site.isPath && site.file.Readable? && (req.verb == 2 || req.verb == 3))
            && (r.status == 200 ==>
                  r.body == if req.verb == 2 then FileBody(site.file.size) else NoBody(site.file.size))
            && (r.status == 404 ==> r.body == Html("The resource '" + req.target + "' was not found"))
            && (r.status == 500 ==> r.body == Html("An error occurred: '" + site.file.message + "'"))
            && (r.status == 400 ==>
                  r.body == Html(
                    if !passes then "Illegal request-target '" + req.target + "'"
                    else "Unsupported HTTP-method '" + req.verbName +
                         if site.isPath then "' while request file" else "'"))
  {
    hide Illegal;
    GuardExactly(req.target);
  }

  /** HEAD promises what GET sends: the same status, the same fate for the connection, the same length. */
  lemma HeadMatchesGet(req: Request, site: Site)
    ensures var h, g := HandleRequest(req.(verb := HEAD), site), HandleRequest(req.(verb := GET), site);
            && h.status == g.status && h.keepAlive == g.keepAlive
            && (g.body.FileBody? <==> h.body.NoBody?)
            && (if g.body.FileBody? then h.body.size == g.body.size else h.body == g.body)
  {
    hide Illegal;
  }
}
