/** The values that travel through the bookmark service: the stored record,
    the submitted request body, requests and responses. */
module Types {

  datatype Option<+T> = None | Some(value: T)

  /** JavaScript truthiness of an optional text value: present and not the
      empty string. */
  predicate Truthy(f: Option<string>) {
    f.Some? && f.value != ""
  }

  /** A stored bookmark. The four content fields hold exactly the (non-empty)
      text that was submitted; `id` is the identifier assigned on creation. */
  datatype Bookmark = Bookmark(title: string, url: string, description: string, rating: string, id: string)

  /** A parsed request body for creation. A field the client left out is
      `None`; a field sent as the empty string is `Some("")`. */
  datatype Submission = Submission(
    title: Option<string>,
    url: Option<string>,
    description: Option<string>,
    rating: Option<string>)

  /** An error passed down the middleware chain with `next(error)`. */
  datatype AppError = AppError(message: string)

  /** The response bodies the service produces. */
  datatype Body =
    | Text(text: string)                                // a plain-text body
    | BookmarkJson(bookmark: Bookmark)                  // one bookmark as JSON
    | ListJson(bookmarks: seq<Bookmark>)                // the whole list as JSON
    | ErrorJson(reason: string)                         // an object whose error field is the reason
    | ServerErrorJson                                   // the fixed production error object
    | ErrorDetailJson(message: string, error: AppError) // the error's message beside the error itself

  datatype Response = Response(status: int, body: Body)

  datatype Verb = Get | Post | Delete | OtherVerb(name: string)

  /** An inbound request. `path` is the URL path split at '/', without empty
      segments ("/" is [], "/bookmarks/x" is ["bookmarks", "x"]); `pending` is an
      error that an earlier stage has already passed on with `next(error)`. */
  datatype Request = Request(
    verb: Verb,
    path: seq<string>,
    authorization: Option<string>,
    body: Submission,
    pending: Option<AppError>)
}
