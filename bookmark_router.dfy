/** The bookmark router: an in-memory list of bookmarks and the four handlers
    that read or change it (list, create, get by id, delete by id). */
module BookmarkRouter {
  import opened Types

  const InvalidData := Response(400, Text("Invalid data"))
  const NotFound := Response(404, Text("Bookmark not found"))

  // ---------------------------------------------------------------------------
  // Validation of a creation request
  // ---------------------------------------------------------------------------

  datatype FieldName = Title | Url | Description | Rating

  /** Position of a field in the order the handler checks them. */
  function Rank(f: FieldName): nat {
    match f
    case Title => 0
    case Url => 1
    case Description => 2
    case Rating => 3
  }

  function FieldOf(body: Submission, f: FieldName): Option<string> {
    match f
    case Title => body.title
    case Url => body.url
    case Description => body.description
    case Rating => body.rating
  }

  /** The first field, in checking order, that is not given; None when all
      four are given. */
  function FirstMissing(body: Submission): (r: Option<FieldName>)
    ensures r.None? <==> Truthy(body.title) && Truthy(body.url) && Truthy(body.description) && Truthy(body.rating)
    ensures r.Some? ==> !Truthy(FieldOf(body, r.value))
    ensures r.Some? ==> forall f: FieldName :: Rank(f) < Rank(r.value) ==> Truthy(FieldOf(body, f))
  {
    if !Truthy(body.title) then Some(Title)
    else if !Truthy(body.url) then Some(Url)
    else if !Truthy(body.description) then Some(Description)
    else if !Truthy(body.rating) then Some(Rating)
    else None
  }

  /** Validation stops at the first missing field: the fields after it are
      never looked at, so changing them does not change the outcome. */
  lemma LaterFieldsIgnored(b1: Submission, b2: Submission, f: FieldName)
    requires FirstMissing(b1) == Some(f)
    requires forall g: FieldName :: Rank(g) <= Rank(f) ==> FieldOf(b2, g) == FieldOf(b1, g)
    ensures FirstMissing(b2) == Some(f)
  {
  }

  // ---------------------------------------------------------------------------
  // Search by id
  // ---------------------------------------------------------------------------

  /** No bookmark in `s` has identifier `id`. */
  predicate Absent(s: seq<Bookmark>, id: string) {
    forall i :: 0 <= i < |s| ==> s[i].id != id
  }

  /** Index of the first bookmark whose id is `id`, or -1 when there is none
      (the result of Array.prototype.findIndex). */
  function IndexOf(s: seq<Bookmark>, id: string): (r: int)
    ensures -1 <= r < |s|
    ensures r == -1 <==> Absent(s, id)
    ensures r >= 0 ==> s[r].id == id && forall i :: 0 <= i < r ==> s[i].id != id
  {
    if |s| == 0 then -1
    else if s[0].id == id then 0
    else
      var k := IndexOf(s[1..], id);
      if k == -1 then -1
      else
        k + 1
  }

  /** The first-match index is determined by the two facts that characterize
      it: a match at `k` and none before. */
  lemma IndexOfIsFirstMatch(s: seq<Bookmark>, id: string, k: nat)
    requires k < |s| && s[k].id == id
    requires forall i :: 0 <= i < k ==> s[i].id != id
    ensures IndexOf(s, id) == k
  {
  }

  /** `s` with the element at index `k` cut out (Array.prototype.splice(k, 1)). */
  function RemoveAt(s: seq<Bookmark>, k: nat): (r: seq<Bookmark>)
    requires k < |s|
    ensures |r| == |s| - 1
    ensures forall i :: 0 <= i < k ==> r[i] == s[i]
    ensures forall i :: k <= i < |r| ==> r[i] == s[i + 1]
  {
    s[..k] + s[k + 1..]
  }

  /** Removing one element leaves the others: as a multiset, the input is the
      result plus the removed element. */
  lemma RemoveAtMultiset(s: seq<Bookmark>, k: nat)
    requires k < |s|
    ensures multiset(s) == multiset(RemoveAt(s, k)) + multiset{s[k]}
  {
    assert s == s[..k] + [s[k]] + s[k + 1..];
  }

  /** Every identifier is used at most once. */
  predicate UniqueIds(s: seq<Bookmark>) {
    forall i, j :: 0 <= i < j < |s| ==> s[i].id != s[j].id
  }

  // ---------------------------------------------------------------------------
  // The handlers, as functions of the list before the request
  // ---------------------------------------------------------------------------

  /** The routes the router serves, relative to the path it is mounted at. */
  datatype Route = ListAll | CreateOne | GetOne(id: string) | DeleteOne(id: string)

  /** Route matching for '/bookmarks' (GET, POST) and '/bookmarks/:id' (GET,
      DELETE); any other verb or path is not handled by the router. */
  function MatchRoute(verb: Verb, path: seq<string>): (r: Option<Route>)
    ensures r.Some? ==> |path| >= 1 && path[0] == "bookmarks"
    ensures r == Some(ListAll) <==> verb == Get && path == ["bookmarks"]
    ensures r == Some(CreateOne) <==> verb == Post && path == ["bookmarks"]
    ensures forall id :: r == Some(GetOne(id)) <==> verb == Get && path == ["bookmarks", id] && id != ""
    ensures forall id :: r == Some(DeleteOne(id)) <==> verb == Delete && path == ["bookmarks", id] && id != ""
  {
    if |path| == 1 && path[0] == "bookmarks" then
      match verb
      case Get => Some(ListAll)
      case Post => Some(CreateOne)
      case _ => None
    else if |path| == 2 && path[0] == "bookmarks" && path[1] != "" then
      match verb
      case Get => Some(GetOne(path[1]))
      case Delete => Some(DeleteOne(path[1]))
      case _ => None
    else None
  }

  /** The record a successful creation stores. */
  function NewBookmark(body: Submission, id: string): (b: Bookmark)
    requires FirstMissing(body).None?
    ensures Some(b.title) == body.title && Some(b.url) == body.url
    ensures Some(b.description) == body.description && Some(b.rating) == body.rating
    ensures b.id == id
  {
    Bookmark(body.title.value, body.url.value, body.description.value, body.rating.value, id)
  }

  /** One request handled by the router: the response it sends and the list
      afterwards. `freshId` stands for the value uuid() would produce. */
  function Step(s: seq<Bookmark>, route: Route, body: Submission, freshId: string): (seq<Bookmark>, Response)
  {
    match route
    case ListAll => (s, Response(200, ListJson(s)))
    case CreateOne =>
      if FirstMissing(body).Some? then (s, InvalidData)
      else (s + [NewBookmark(body, freshId)], Response(201, BookmarkJson(NewBookmark(body, freshId))))
    case GetOne(id) =>
      var k := IndexOf(s, id);
      if k == -1 then (s, NotFound) else (s, Response(200, BookmarkJson(s[k])))
    case DeleteOne(id) =>
      var k := IndexOf(s, id);
      if k == -1 then (s, NotFound)
      else (RemoveAt(s, k), Response(200, ListJson(RemoveAt(s, k))))
  }

  /** Only a valid creation and a delete that finds its id change the list;
      every failure (400, 404) and every read leaves it as it was. */
  lemma StepChangesOnlyOnSuccess(s: seq<Bookmark>, route: Route, body: Submission, freshId: string)
    ensures Step(s, route, body, freshId).0 != s ==>
      (route == CreateOne && Step(s, route, body, freshId).1.status == 201) ||
      (route.DeleteOne? && Step(s, route, body, freshId).1.status == 200)
    ensures Step(s, route, body, freshId).1.status in {400, 404} ==> Step(s, route, body, freshId).0 == s
  {
  }

  /** A created bookmark with a fresh id is what a later get of that id finds. */
  lemma CreateThenGet(s: seq<Bookmark>, body: Submission, freshId: string)
    requires FirstMissing(body).None?
    requires Absent(s, freshId)
    ensures var s' := Step(s, CreateOne, body, freshId).0;
      Step(s', GetOne(freshId), body, freshId).1 == Response(200, BookmarkJson(NewBookmark(body, freshId)))
  {
    var s' := s + [NewBookmark(body, freshId)];
    IndexOfIsFirstMatch(s', freshId, |s|);
  }

  /** Deleting the bookmark just created with a fresh id gives back the list
      that was there before the creation. */
  lemma CreateThenDelete(s: seq<Bookmark>, body: Submission, freshId: string)
    requires FirstMissing(body).None?
    requires Absent(s, freshId)
    ensures var s' := Step(s, CreateOne, body, freshId).0;
      Step(s', DeleteOne(freshId), body, freshId).0 == s
  {
    var s' := s + [NewBookmark(body, freshId)];
    IndexOfIsFirstMatch(s', freshId, |s|);
    assert RemoveAt(s', |s|) == s;
  }

  /** When ids are unique, a delete that succeeds removes the only bookmark
      with that id, so a repeated delete or get of it answers 404. */
  lemma DeleteThenMiss(s: seq<Bookmark>, id: string, body: Submission, freshId: string)
    requires UniqueIds(s)
    requires IndexOf(s, id) != -1
    ensures var s' := Step(s, DeleteOne(id), body, freshId).0;
      Step(s', DeleteOne(id), body, freshId) == (s', NotFound) &&
      Step(s', GetOne(id), body, freshId) == (s', NotFound)
  {
  }

  /** Creation with a fresh id and deletion both keep identifiers unique. */
  lemma StepKeepsUniqueIds(s: seq<Bookmark>, route: Route, body: Submission, freshId: string)
    requires UniqueIds(s)
    requires route == CreateOne ==> Absent(s, freshId)
    ensures UniqueIds(Step(s, route, body, freshId).0)
  {
  }

  // ---------------------------------------------------------------------------
  // The module-level list and its handlers
  // ---------------------------------------------------------------------------

  class BookmarkStore {
    /** The module-level bookmark list, in insertion order. */
    var bookmarks: seq<Bookmark>

    /** The initial contents come from a module that is not modelled here. */
    constructor (initial: seq<Bookmark>)
      ensures bookmarks == initial
    {
      bookmarks := initial;
    }

    /** GET /bookmarks: the whole list in stored order. */
    method List() returns (resp: Response)
      ensures resp.status == 200 && resp.body == ListJson(bookmarks)
    {
      resp := Response(200, ListJson(bookmarks));
    }

    /** Array.prototype.findIndex over the list, comparing ids. */
    method FindIndex(id: string) returns (k: int)
      ensures -1 <= k < |bookmarks|
      ensures k == -1 ==> forall i :: 0 <= i < |bookmarks| ==> bookmarks[i].id != id
      ensures k >= 0 ==> bookmarks[k].id == id && forall i :: 0 <= i < k ==> bookmarks[i].id != id
      ensures k == IndexOf(bookmarks, id)
    {
      k := 0;
      while k < |bookmarks|
        invariant 0 <= k <= |bookmarks|
        invariant forall i :: 0 <= i < k ==> bookmarks[i].id != id
      {
        if bookmarks[k].id == id {
          return;
        }
        k := k + 1;
      }
      k := -1;
    }

    /** Array.prototype.find over the list, comparing ids. */
    method Find(id: string) returns (found: Option<Bookmark>)
      ensures found.None? <==> forall i :: 0 <= i < |bookmarks| ==> bookmarks[i].id != id
      ensures found.Some? ==> found.value in bookmarks && found.value.id == id
      ensures found.Some? ==> found.value == bookmarks[IndexOf(bookmarks, id)]
    {
      var i := 0;
      while i < |bookmarks|
        invariant 0 <= i <= |bookmarks|
        invariant forall j :: 0 <= j < i ==> bookmarks[j].id != id
      {
        if bookmarks[i].id == id {
          assert IndexOf(bookmarks, id) == i;
          return Some(bookmarks[i]);
        }
        i := i + 1;
      }
      return None;
    }

    /** GET /bookmarks/:id: the first bookmark with that id, or 404. */
    method GetById(id: string) returns (resp: Response)
      ensures Absent(bookmarks, id) ==> resp == NotFound
      ensures !Absent(bookmarks, id) ==> resp == Response(200, BookmarkJson(bookmarks[IndexOf(bookmarks, id)]))
      ensures (bookmarks, resp) == Step(bookmarks, GetOne(id), Submission(None, None, None, None), "")
    {
      var bookmark := Find(id);
      if bookmark.None? {
        return NotFound;
      }
      resp := Response(200, BookmarkJson(bookmark.value));
    }

    /** POST /bookmarks: check title, url, description and rating in that
        order, answer 400 at the first one missing; otherwise append a new
        record with id `freshId` and answer 201 with it. */
    method Create(body: Submission, freshId: string) returns (resp: Response)
      modifies this
      ensures FirstMissing(body).Some? ==> resp == InvalidData && bookmarks == old(bookmarks)
      ensures FirstMissing(body).None? ==>
        |bookmarks| == |old(bookmarks)| + 1 &&
        bookmarks[..|old(bookmarks)|] == old(bookmarks) &&
        var b := bookmarks[|old(bookmarks)|];
        Some(b.title) == body.title && Some(b.url) == body.url &&
        Some(b.description) == body.description && Some(b.rating) == body.rating &&
        b.id == freshId && resp == Response(201, BookmarkJson(b))
      ensures (bookmarks, resp) == Step(old(bookmarks), CreateOne, body, freshId)
    {
      if !Truthy(body.title) {
        return InvalidData;
      }
      if !Truthy(body.url) {
        return InvalidData;
      }
      if !Truthy(body.description) {
        return InvalidData;
      }
      if !Truthy(body.rating) {
        return InvalidData;
      }
      var bookmark := Bookmark(body.title.value, body.url.value, body.description.value, body.rating.value, freshId);
      bookmarks := bookmarks + [bookmark];
      assert bookmarks[..|old(bookmarks)|] == old(bookmarks);
      resp := Response(201, BookmarkJson(bookmark));
    }

    /** DELETE /bookmarks/:id: splice out the first bookmark with that id and
        answer with the remaining list, or 404 and leave the list alone. */
    method DeleteById(id: string) returns (resp: Response)
      modifies this
      ensures Absent(old(bookmarks), id) ==> resp == NotFound && bookmarks == old(bookmarks)
      ensures !Absent(old(bookmarks), id) ==>
        var k := IndexOf(old(bookmarks), id);
        bookmarks == RemoveAt(old(bookmarks), k) && resp == Response(200, ListJson(bookmarks))
      ensures (bookmarks, resp) == Step(old(bookmarks), DeleteOne(id), Submission(None, None, None, None), "")
    {
      var bookmarkIndex := FindIndex(id);
      if bookmarkIndex == -1 {
        return NotFound;
      }
      bookmarks := bookmarks[..bookmarkIndex] + bookmarks[bookmarkIndex + 1..];
      resp := Response(200, ListJson(bookmarks));
    }
  }
}
