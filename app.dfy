/** The application: the bearer-token gate, the terminal error handler and
    the order in which the root route, the bookmark router, the error handler
    and the gate are registered. The mode (NODE_ENV) and the shared secret
    (API_TOKEN) are parameters; either may be unset. */
module App {
  import opened Types
  import BookmarkRouter

  // ---------------------------------------------------------------------------
  // String.prototype.split with a one-character separator, and its inverse
  // ---------------------------------------------------------------------------

  /** The segments of `s` between occurrences of `sep`, as JavaScript's
      `s.split(sep)` gives them: "" splits into [""], and two separators in a
      row give an empty segment between them. */
  function Split(s: string, sep: char): (parts: seq<string>)
    ensures |parts| >= 1
    ensures forall i :: 0 <= i < |parts| ==> sep !in parts[i]
    decreases |s|
  {
    if |s| == 0 then [""]
    else
      var rest := Split(s[1..], sep);
      if s[0] == sep then [""] + rest
      else [[s[0]] + rest[0]] + rest[1..]
  }

  /** The segments glued back together with `sep` between them. */
  function Join(parts: seq<string>, sep: char): string
    requires |parts| >= 1
  {
    if |parts| == 1 then parts[0]
    else parts[0] + [sep] + Join(parts[1..], sep)
  }

  /** Splitting loses nothing: joining the segments gives the string back. */
  lemma {:induction false} JoinSplit(s: string, sep: char)
    ensures Join(Split(s, sep), sep) == s
    decreases |s|
  {
    if |s| > 0 {
      var rest := Split(s[1..], sep);
      JoinSplit(s[1..], sep);
      if s[0] == sep {
        assert ([""] + rest)[1..] == rest;
      } else if |rest| == 1 {
        assert s == [s[0]] + s[1..];
      } else {
        var head := [s[0]] + rest[0];
        assert ([head] + rest[1..])[1..] == rest[1..];
        assert Join(rest, sep) == rest[0] + [sep] + Join(rest[1..], sep);
        assert s == [s[0]] + s[1..];
      }
    }
  }

  /** A prefix without separators becomes the front of the first segment. */
  lemma {:induction false} SplitPrefix(x: string, y: string, sep: char)
    requires sep !in x
    ensures Split(x + y, sep) == [x + Split(y, sep)[0]] + Split(y, sep)[1..]
    decreases |x|
  {
    if |x| > 0 {
      SplitPrefix(x[1..], y, sep);
      assert (x + y)[1..] == x[1..] + y;
      assert [x[0]] + (x[1..] + Split(y, sep)[0]) == x + Split(y, sep)[0];
    } else {
      var parts := Split(y, sep);
      assert x + y == y;
      assert x + parts[0] == parts[0];
      assert parts == [parts[0]] + parts[1..];
    }
  }

  /** A separator at the front opens an empty first segment. */
  lemma SplitLeadingSep(y: string, sep: char)
    ensures Split([sep] + y, sep) == [""] + Split(y, sep)
  {
  }

  /** Joining segments that contain no separator and splitting again gives
      the same segments. */
  lemma {:induction false} SplitJoin(parts: seq<string>, sep: char)
    requires |parts| >= 1
    requires forall i :: 0 <= i < |parts| ==> sep !in parts[i]
    ensures Split(Join(parts, sep), sep) == parts
    decreases |parts|
  {
    if |parts| == 1 {
      SplitPrefix(parts[0], "", sep);
      assert parts[0] + "" == parts[0];
    } else {
      var rest := Join(parts[1..], sep);
      SplitJoin(parts[1..], sep);
      assert parts[0] + [sep] + rest == parts[0] + ([sep] + rest);
      SplitPrefix(parts[0], [sep] + rest, sep);
      SplitLeadingSep(rest, sep);
      assert parts[0] + "" == parts[0];
      assert parts == [parts[0]] + parts[1..];
    }
  }

  /** A string without the separator is a single segment. */
  lemma SplitWithoutSep(s: string, sep: char)
    requires sep !in s
    ensures Split(s, sep) == [s]
  {
    SplitPrefix(s, "", sep);
    assert s + "" == s;
  }

  /** `s.split(' ')[i]`: None stands for JavaScript's undefined. */
  function Segment(s: string, i: nat): Option<string> {
    var parts := Split(s, ' ');
    if i < |parts| then Some(parts[i]) else None
  }

  // ---------------------------------------------------------------------------
  // The bearer-token gate
  // ---------------------------------------------------------------------------

  const Unauthorized := Response(401, ErrorJson("Unauthorized request"))

  /** The gate lets a request through when the Authorization header is truthy
      and its segment 1 is strictly equal to API_TOKEN. */
  predicate Authorized(authorization: Option<string>, apiToken: Option<string>) {
    Truthy(authorization) && Segment(authorization.value, 1) == apiToken
  }

  /** The gate's answer: None means it calls next(), otherwise the response
      it sends. */
  function Gate(authorization: Option<string>, apiToken: Option<string>): (r: Option<Response>)
    ensures r.None? <==> Authorized(authorization, apiToken)
    ensures r.Some? ==> r.value == Unauthorized
  {
    if Authorized(authorization, apiToken) then None else Some(Unauthorized)
  }

  /** An absent or empty header is rejected, whatever the token. */
  lemma GateRejectsMissingHeader(authorization: Option<string>, apiToken: Option<string>)
    requires !Truthy(authorization)
    ensures Gate(authorization, apiToken) == Some(Unauthorized)
  {
  }

  /** With a token configured, a header without a space has no segment 1 and
      is rejected. */
  lemma GateRejectsHeaderWithoutSpace(h: string, t: string)
    requires ' ' !in h
    ensures Gate(Some(h), Some(t)) == Some(Unauthorized)
  {
    SplitWithoutSep(h, ' ');
  }

  /** A token that itself contains a space can never be matched. */
  lemma GateRejectsTokenWithSpace(authorization: Option<string>, t: string)
    requires ' ' in t
    ensures Gate(authorization, Some(t)) == Some(Unauthorized)
  {
  }

  /** The gate accepts any header whose second space-separated segment is
      the token: the scheme word is not checked, and whatever follows the
      token after another space is ignored ("X tok extra" passes). */
  lemma GateAcceptsSecondSegment(scheme: string, t: string, tail: string)
    requires ' ' !in scheme && ' ' !in t
    requires tail == [] || tail[0] == ' '
    ensures Gate(Some(scheme + [' '] + t + tail), Some(t)) == None
  {
    var h := scheme + [' '] + t + tail;
    assert h == scheme + ([' '] + (t + tail));
    SplitPrefix(scheme, [' '] + (t + tail), ' ');
    SplitLeadingSep(t + tail, ' ');
    SplitPrefix(t, tail, ' ');
    if tail == [] {
    } else {
      assert tail == [' '] + tail[1..];
      SplitLeadingSep(tail[1..], ' ');
    }
    assert Split(tail, ' ')[0] == "";
    assert t + "" == t;
  }

  /** Conversely, every accepted header has that shape: a scheme word without
      spaces, one space, the token, then nothing or a space and anything. */
  lemma AcceptedHeaderShape(h: string, t: string) returns (scheme: string, tail: string)
    requires Gate(Some(h), Some(t)) == None
    ensures ' ' !in scheme && ' ' !in t
    ensures tail == [] || tail[0] == ' '
    ensures h == scheme + [' '] + t + tail
  {
    var parts := Split(h, ' ');
    JoinSplit(h, ' ');
    scheme := parts[0];
    assert Join(parts, ' ') == parts[0] + [' '] + Join(parts[1..], ' ');
    if |parts| == 2 {
      tail := [];
      assert Join(parts[1..], ' ') == t;
    } else {
      tail := [' '] + Join(parts[2..], ' ');
      assert parts[1..][1..] == parts[2..];
      assert Join(parts[1..], ' ') == t + [' '] + Join(parts[2..], ' ');
    }
  }

  /** With API_TOKEN unset, a non-empty header without a space is accepted:
      its missing segment 1 is undefined, and so is the token. */
  lemma GateAcceptsSpacelessHeaderWhenTokenUnset(h: string)
    requires h != "" && ' ' !in h
    ensures Gate(Some(h), None) == None
  {
    SplitWithoutSep(h, ' ');
  }

  // ---------------------------------------------------------------------------
  // The terminal error handler
  // ---------------------------------------------------------------------------

  /** The response to an error passed down the chain: always 500; in
      production a fixed body, otherwise the error's message and the error. */
  function ErrorResponse(nodeEnv: Option<string>, err: AppError): (r: Response)
    ensures r.status == 500
    ensures nodeEnv == Some("production") ==> r.body == ServerErrorJson
    ensures nodeEnv != Some("production") ==> r.body.ErrorDetailJson? && r.body.message == err.message && r.body.error == err
  {
    if nodeEnv == Some("production") then Response(500, ServerErrorJson)
    else Response(500, ErrorDetailJson(err.message, err))
  }

  /** In production the response reveals nothing about the error. */
  lemma ProductionHidesError(e1: AppError, e2: AppError)
    ensures ErrorResponse(Some("production"), e1) == ErrorResponse(Some("production"), e2)
  {
  }

  /** In any other mode (NODE_ENV unset included) different errors give
      different responses. */
  lemma OtherModesExposeError(nodeEnv: Option<string>, e1: AppError, e2: AppError)
    requires nodeEnv != Some("production") && e1 != e2
    ensures ErrorResponse(nodeEnv, e1) != ErrorResponse(nodeEnv, e2)
  {
  }

  // ---------------------------------------------------------------------------
  // The middleware pipeline
  // ---------------------------------------------------------------------------

  datatype Stage = RootRoute | Router | ErrorHandler | TokenGate

  /** The stages in the order they are registered. */
  const Pipeline: seq<Stage> := [RootRoute, Router, ErrorHandler, TokenGate]

  const Hello := Response(200, Text("Hello, world!"))

  /** The router is mounted at '/bookmarks/' and serves its routes relative
      to that prefix. */
  function RouterRoute(req: Request): (r: Option<BookmarkRouter.Route>)
    ensures r == Some(BookmarkRouter.ListAll) <==> req.verb == Get && req.path == ["bookmarks", "bookmarks"]
    ensures r == Some(BookmarkRouter.CreateOne) <==> req.verb == Post && req.path == ["bookmarks", "bookmarks"]
    ensures forall id :: r == Some(BookmarkRouter.GetOne(id)) <==>
      req.verb == Get && req.path == ["bookmarks", "bookmarks", id] && id != ""
    ensures forall id :: r == Some(BookmarkRouter.DeleteOne(id)) <==>
      req.verb == Delete && req.path == ["bookmarks", "bookmarks", id] && id != ""
  {
    if |req.path| >= 1 && req.path[0] == "bookmarks" then BookmarkRouter.MatchRoute(req.verb, req.path[1..])
    else None
  }

  /** Whether a stage ends the request (sends a response) rather than passing
      it on. Ordinary handlers are skipped while an error is pending; the
      four-argument error handler runs only then. */
  predicate Responds(stage: Stage, req: Request, apiToken: Option<string>) {
    match stage
    case RootRoute => req.pending.None? && req.verb == Get && req.path == []
    case Router => req.pending.None? && RouterRoute(req).Some?
    case ErrorHandler => req.pending.Some?
    case TokenGate => req.pending.None? && !Authorized(req.authorization, apiToken)
  }

  datatype Outcome = HandledBy(stage: Stage) | FellThrough

  /** Express walks the stages in order; the first that responds ends the
      request. FellThrough: no stage responded. */
  function Dispatch(stages: seq<Stage>, req: Request, apiToken: Option<string>): (o: Outcome)
    ensures o == FellThrough <==> forall i :: 0 <= i < |stages| ==> !Responds(stages[i], req, apiToken)
    ensures o.HandledBy? ==>
      (exists k :: 0 <= k < |stages| && stages[k] == o.stage && Responds(stages[k], req, apiToken) &&
         forall i :: 0 <= i < k ==> !Responds(stages[i], req, apiToken))
  {
    if |stages| == 0 then FellThrough
    else if Responds(stages[0], req, apiToken) then HandledBy(stages[0])
    else
      var o := Dispatch(stages[1..], req, apiToken);
      if o.HandledBy? then
        ghost var k :| 0 <= k < |stages| - 1 && stages[1..][k] == o.stage &&
          Responds(stages[1..][k], req, apiToken) && forall i :: 0 <= i < k ==> !Responds(stages[1..][i], req, apiToken);
        assert stages[k + 1] == o.stage;
        o
      else o
  }

  /** Dispatch over the registered order, one stage at a time. */
  lemma DispatchPipeline(req: Request, apiToken: Option<string>)
    ensures Dispatch(Pipeline, req, apiToken) ==
      if Responds(RootRoute, req, apiToken) then HandledBy(RootRoute)
      else if Responds(Router, req, apiToken) then HandledBy(Router)
      else if Responds(ErrorHandler, req, apiToken) then HandledBy(ErrorHandler)
      else if Responds(TokenGate, req, apiToken) then HandledBy(TokenGate)
      else FellThrough
  {
    var s1, s2, s3 := Pipeline[1..], Pipeline[2..], Pipeline[3..];
    assert s1[1..] == s2 && s2[1..] == s3 && s3[1..] == [];
    assert Dispatch(s3, req, apiToken) ==
      if Responds(TokenGate, req, apiToken) then HandledBy(TokenGate) else FellThrough;
    assert Dispatch(s2, req, apiToken) ==
      if Responds(ErrorHandler, req, apiToken) then HandledBy(ErrorHandler) else Dispatch(s3, req, apiToken);
    assert Dispatch(s1, req, apiToken) ==
      if Responds(Router, req, apiToken) then HandledBy(Router) else Dispatch(s2, req, apiToken);
  }

  /** The router is registered before the gate: a request it serves is
      answered by it, whatever the Authorization header says. */
  lemma RouterBypassesGate(req: Request, apiToken: Option<string>, authorization: Option<string>)
    requires req.pending.None? && RouterRoute(req).Some?
    ensures Dispatch(Pipeline, req, apiToken) == HandledBy(Router)
    ensures Dispatch(Pipeline, req.(authorization := authorization), apiToken) == HandledBy(Router)
  {
  }

  /** Every other request that is not the root route reaches the gate: it is
      answered 401 unless authorized, and passes through when authorized. */
  lemma GateGuardsOtherRequests(req: Request, apiToken: Option<string>)
    requires req.pending.None? && RouterRoute(req).None?
    requires !(req.verb == Get && req.path == [])
    ensures Dispatch(Pipeline, req, apiToken) == (if Authorized(req.authorization, apiToken) then FellThrough else HandledBy(TokenGate))
  {
    DispatchPipeline(req, apiToken);
  }

  /** A pending error skips the routes and the gate and reaches the error
      handler. */
  lemma ErrorsReachHandler(req: Request, apiToken: Option<string>)
    requires req.pending.Some?
    ensures Dispatch(Pipeline, req, apiToken) == HandledBy(ErrorHandler)
  {
    DispatchPipeline(req, apiToken);
  }

  /** Had the gate been registered first, the same router request without a
      valid token would have been refused: the order is what lets it pass. */
  lemma GateFirstWouldGuardRouter(req: Request, apiToken: Option<string>)
    requires req.pending.None? && RouterRoute(req).Some?
    requires !Authorized(req.authorization, apiToken)
    ensures Dispatch([TokenGate, RootRoute, Router, ErrorHandler], req, apiToken) == HandledBy(TokenGate)
    ensures Dispatch(Pipeline, req, apiToken) == HandledBy(Router)
  {
  }

  /** One request through the whole application. The response is None when
      no stage answers (Express's own 404 is not modelled). `freshId` stands
      for the id uuid() would generate. */
  method Serve(store: BookmarkRouter.BookmarkStore, req: Request, apiToken: Option<string>,
               nodeEnv: Option<string>, freshId: string) returns (resp: Option<Response>)
    modifies store
    ensures Dispatch(Pipeline, req, apiToken) == HandledBy(Router) ==>
      resp.Some? &&
      (store.bookmarks, resp.value) == BookmarkRouter.Step(old(store.bookmarks), RouterRoute(req).value, req.body, freshId)
    ensures Dispatch(Pipeline, req, apiToken) != HandledBy(Router) ==> store.bookmarks == old(store.bookmarks)
    ensures Dispatch(Pipeline, req, apiToken) == HandledBy(RootRoute) ==> resp == Some(Hello)
    ensures Dispatch(Pipeline, req, apiToken) == HandledBy(ErrorHandler) ==>
      req.pending.Some? && resp == Some(ErrorResponse(nodeEnv, req.pending.value))
    ensures Dispatch(Pipeline, req, apiToken) == HandledBy(TokenGate) ==> resp == Some(Unauthorized)
    ensures Dispatch(Pipeline, req, apiToken) == FellThrough ==> resp == None
  {
    var outcome := Dispatch(Pipeline, req, apiToken);
    match outcome
    case FellThrough =>
      resp := None;
    case HandledBy(RootRoute) =>
      resp := Some(Hello);
    case HandledBy(ErrorHandler) =>
      resp := Some(ErrorResponse(nodeEnv, req.pending.value));
    case HandledBy(TokenGate) =>
      resp := Gate(req.authorization, apiToken);
    case HandledBy(Router) =>
      var r: Response;
      match RouterRoute(req).value {
        case ListAll =>
          r := store.List();
        case CreateOne =>
          r := store.Create(req.body, freshId);
        case GetOne(id) =>
          r := store.GetById(id);
        case DeleteOne(id) =>
          r := store.DeleteById(id);
      }
      resp := Some(r);
  }
}
