# Bookmark server: in-memory store, token gate and error handler

This project models the core of a small Express bookmark service.

- **The bookmark router** (`bookmark_router.dfy`, module `BookmarkRouter`) keeps a module-level list of bookmarks. Four handlers work on it:
  - list the whole collection;
  - create a bookmark, after checking `title`, `url`, `description` and `rating` in that order;
  - get a bookmark by id, by linear search;
  - delete a bookmark by id, by `findIndex` followed by `splice`.

  The list is the field `bookmarks: seq<Bookmark>` of class `BookmarkStore`. The handlers are methods on that class. The search loops are proved against the function `IndexOf`.
- Alongside the class, the pure function `Step` gives the router's behaviour as a function of the list before the request. The lemmas about `Step` state:
  - which requests change the list;
  - that a get after a create finds the new record;
  - that a delete after a create restores the list;
  - that, when ids are unique, a repeated delete answers 404;
  - that ids stay unique.
- **The application** (`app.dfy`, module `App`) covers three things, all as pure functions:
  - the bearer-token gate, over a model of JavaScript's `split(' ')` that is proved invertible by `Join`;
  - the terminal error handler;
  - the order in which middleware is registered (root route, router, error handler, gate).

  `Dispatch` walks that order. The lemmas show two things about these four stages. The router answers its requests before the gate is ever consulted. Every other request that is not the root route and carries no pending error is decided by the gate. The pipeline leaves out the earlier `cors()` stage, and Express's HEAD-on-GET rule (see "## Left out").
- `types.dfy` (module `Types`) holds the shared values: `Option`, `Bookmark`, `Submission`, `Request` and `Response`.

The repository's test file, test/bookmarks-endpoints.spec.js, expects behaviour that the code under src/ does not have. The model follows the code:
- Errors are plain text: 400 `Invalid data`, 404 `Bookmark not found`.
- There is no rating-range check.
- There is no sanitiser.
- There is no PATCH.
- DELETE answers 200 with the remaining list.
- The token gate is registered *after* the router, so it never guards the bookmark routes.
- The router is mounted at `/bookmarks/` and declares its own routes as `/bookmarks` and `/bookmarks/:id`. The full paths are therefore `/bookmarks/bookmarks` and `/bookmarks/bookmarks/:id`.

Modelling choices:
- The configured token (`API_TOKEN`) and mode (`NODE_ENV`) are `Option<string>` parameters. Either may be unset.
- The id that `uuid()` would produce is a parameter, `freshId`.
- A body field is `Option<string>`. It counts as missing, like a falsy JavaScript value, when it is absent or the empty string.

## Model

| member | source | states |
|---|---|---|
| BookmarkRouter.FirstMissing | src/bookmark/bookmarkRouter.js:16-44 | None exactly when all four fields are truthy; otherwise the named field is falsy and every field checked before it is truthy |
| BookmarkRouter.LaterFieldsIgnored | src/bookmark/bookmarkRouter.js:18-44 | once a field is missing, the fields after it in the check order cannot change the validation outcome |
| BookmarkRouter.IndexOf | src/bookmark/bookmarkRouter.js:82 | -1 exactly when no bookmark has the id; otherwise an index whose bookmark has the id, with no match before it |
| BookmarkRouter.RemoveAt | src/bookmark/bookmarkRouter.js:91 | splice(k, 1): length drops by one, elements before k stay, elements after k shift down by one in order |
| BookmarkRouter.RemoveAtMultiset | src/bookmark/bookmarkRouter.js:91 | the removed element plus the remaining ones are exactly the original elements |
| BookmarkRouter.MatchRoute | src/bookmark/bookmarkRouter.js:9-67 | GET and POST on '/bookmarks', GET and DELETE on '/bookmarks/:id' with a non-empty id, and nothing else |
| BookmarkRouter.NewBookmark | src/bookmark/bookmarkRouter.js:46-54 | the created record holds exactly the submitted title, url, description and rating, and the generated id |
| BookmarkRouter.Step | src/bookmark/bookmarkRouter.js:11-96 | the four handlers as one function of the list before the request: the list afterwards and the response; `Create`, `GetById`, `DeleteById` and `App.Serve` are proved to agree with it |
| BookmarkRouter.StepChangesOnlyOnSuccess | src/bookmark/bookmarkRouter.js:15-96 | the list changes only on a 201 create or a 200 delete; every 400 and 404 leaves it unchanged |
| BookmarkRouter.CreateThenGet | src/bookmark/bookmarkRouter.js:46-78 | after creating with a fresh id, get by that id returns 200 with the created record |
| BookmarkRouter.CreateThenDelete | src/bookmark/bookmarkRouter.js:46-91 | deleting the record just created with a fresh id restores the previous list |
| BookmarkRouter.DeleteThenMiss | src/bookmark/bookmarkRouter.js:80-96 | with unique ids, after a successful delete both a repeated delete and a get of that id answer 404 and change nothing |
| BookmarkRouter.StepKeepsUniqueIds | src/bookmark/bookmarkRouter.js:46-91 | every request keeps ids unique, provided a create uses an id not already in the list |
| BookmarkRouter.BookmarkStore.constructor | src/bookmark/bookmarkRouter.js:4 | the store starts from an arbitrary initial list |
| BookmarkRouter.BookmarkStore.List | src/bookmark/bookmarkRouter.js:11-14 | 200 with the whole list in stored order (empty when the store is empty); the store is not modified |
| BookmarkRouter.BookmarkStore.FindIndex | src/bookmark/bookmarkRouter.js:82 | the linear scan returns -1 when no id matches, else the first matching index, equal to IndexOf |
| BookmarkRouter.BookmarkStore.Find | src/bookmark/bookmarkRouter.js:69 | the linear scan returns None exactly when no id matches, else the element at the first matching index |
| BookmarkRouter.BookmarkStore.GetById | src/bookmark/bookmarkRouter.js:67-79 | 404 'Bookmark not found' when no id matches, else 200 with the first match; the store is not modified |
| BookmarkRouter.BookmarkStore.Create | src/bookmark/bookmarkRouter.js:15-63 | 400 'Invalid data' and no change when a field is missing; otherwise exactly one record holding the submitted fields and freshId is appended after the unchanged old elements, and is returned with 201 |
| BookmarkRouter.BookmarkStore.DeleteById | src/bookmark/bookmarkRouter.js:80-96 | 404 and no change on a miss; on a hit exactly the first match is spliced out and the remaining list is returned with 200 |
| App.Split | src/app.js:43 | no segment contains the separator, and there is always at least one segment |
| App.JoinSplit | src/app.js:43 | joining the segments of a split with the separator gives back the original header |
| App.SplitJoin | src/app.js:43 | splitting a join of separator-free segments gives back those segments |
| Types.Truthy | src/bookmark/bookmarkRouter.js:18-44 | JavaScript's `!x` on optional text, used for the body fields and the Authorization header: falsy exactly when absent or the empty string |
| App.Segment | src/app.js:43 | `split(' ')[i]`, with None for undefined when the header has fewer than i + 1 segments |
| App.Authorized | src/app.js:43 | the gate's pass condition: the header is truthy and its segment 1 is strictly equal to API_TOKEN |
| App.Gate | src/app.js:40-49 | passes the request on exactly when it is Authorized; otherwise answers 401 {error: 'Unauthorized request'} |
| App.GateRejectsMissingHeader | src/app.js:43-45 | an absent or empty Authorization header is rejected, whatever the token |
| App.GateRejectsHeaderWithoutSpace | src/app.js:43 | with a token configured, a header without a space is rejected, because segment 1 is undefined |
| App.GateRejectsTokenWithSpace | src/app.js:43 | a configured token that contains a space can never be matched |
| App.GateAcceptsSecondSegment | src/app.js:43-48 | any scheme word, one space, the token, then nothing or a space and anything, is accepted |
| App.AcceptedHeaderShape | src/app.js:43-48 | every accepted header has exactly that shape (the converse of GateAcceptsSecondSegment) |
| App.GateAcceptsSpacelessHeaderWhenTokenUnset | src/app.js:43 | with API_TOKEN unset, a non-empty header without a space is accepted, because undefined equals undefined |
| App.ErrorResponse | src/app.js:29-38 | always 500; in production the fixed body {error:{message:'server error'}}, otherwise the error's message and the error itself |
| App.ProductionHidesError | src/app.js:31-32 | in production the response is the same for every error |
| App.OtherModesExposeError | src/app.js:33-35 | outside production, different errors give different responses |
| App.RouterRoute | src/app.js:27 | the route each request reaches under the '/bookmarks/' mount: GET and POST on '/bookmarks/bookmarks', GET and DELETE on '/bookmarks/bookmarks/:id' with a non-empty id, and nothing else |
| App.Responds | src/app.js:23-49 | when each registered stage answers: the root route on GET '/', the router on its routes, the error handler only with a pending error, the gate when the request is not Authorized |
| App.Dispatch | src/app.js:23-49 | falls through exactly when no stage responds; otherwise the stage that handles the request is the first one in registration order that responds |
| App.DispatchPipeline | src/app.js:23-49 | the registered order is root route, router, error handler, token gate |
| App.RouterBypassesGate | src/app.js:27-49 | a request the router serves is handled by the router, whatever Authorization header it carries |
| App.GateGuardsOtherRequests | src/app.js:40-49 | every other request that is not the root route is answered 401 unless Authorized, and passes through when Authorized |
| App.ErrorsReachHandler | src/app.js:29-38 | a request with a pending error skips the routes and the gate and reaches the error handler |
| App.GateFirstWouldGuardRouter | src/app.js:27-49 | the same unauthorized router request would be refused if the gate came first, so only the registration order lets it through |
| App.Serve | src/app.js:23-49 | one request through the application: the stage Dispatch picks answers; only the router changes the store, exactly as Step says |

## Left out

- Express, morgan, helmet, cors and `express.json` setup (src/app.js:1-22): framework plumbing. A body-parser failure is represented only as a pending error on the request.
- Logging (`logger`, `console.error`) and dotenv/config loading: output and process setup. `NODE_ENV` and `API_TOKEN` are parameters.
- `uuid()`: a random foreign call. The generated id is the parameter `freshId`. No freshness is required of it; `StepKeepsUniqueIds`, `CreateThenGet` and `CreateThenDelete` take freshness as a hypothesis instead.
- The modules `../bookmarkList`, `./BookmarksService` and `./config` are not part of this model. The initial list is the constructor's argument.
- BookmarkRouter.BookmarkStore.DeleteById: models only the response that is actually sent, 200 with the remaining list. After `res.json` has completed that response, the chained `.status(200)` only sets a field. The chained `.send(...)` then tries to set a header on a response whose headers are already sent, and throws. Express passes that error to the error handler (src/app.js:29-38). Outside production the handler logs the error, and its own 500 response then fails in the same way. So every successful DELETE also reaches the error handler. Neither `DeleteById` nor `App.Serve` models this second, failing path.
- BookmarkRouter.FirstMissing: JavaScript truthiness is modelled only for optional text (absent or `""` is falsy). A numeric `0` rating, for example, is not modelled.
- BookmarkRouter.IndexOf: the source compares ids with loose `==`. The model compares them as strings.
- App.RouterRoute: Express path details are not modelled. These are HEAD answered by GET handlers, trailing slashes, case-insensitive matching and URL-decoding of `:id`. Paths are lists of segments.
- App.GateGuardsOtherRequests: the pipeline holds only the four stages registered from src/app.js:23 on. It leaves out `cors()` (src/app.js:20), which with its defaults answers every OPTIONS request itself with 204 before any of them runs. So in the model an OPTIONS request is decided by the gate and can get 401. It also leaves out that Express answers HEAD requests with GET handlers, so HEAD '/' would reach the root route and HEAD on the bookmark paths would reach the router.
- App.Serve: when no stage answers, it returns None. Express's built-in 404 response is not modelled.
- PATCH, output sanitising, a rating-range check, JSON error bodies and a location header: test/bookmarks-endpoints.spec.js expects them, but src/ implements none of them.
