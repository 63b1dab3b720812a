/**
 * Request dispatch of the booking server: the if/else chain of the
 * request callback that picks a handler from the request's url and method,
 * and the responses of the handlers that only serve a static file.
 */
module Http {

  /** A response body: literal text, or a file of the server's directory streamed as it is. */
  datatype Body = Text(text: string) | Asset(file: string)

  /** What a handler writes: the status code, the Content-Type header and the body. */
  datatype Response = Response(status: nat, contentType: string, body: Body)

  /** The nine outcomes of the dispatch chain. */
  datatype Handler =
    | Stylesheet
    | Home
    | BookForm
    | Signup
    | CancelForm
    | CancelSubmit
    | ViewForm
    | ViewSubmit
    | NotFound
  {
    /** The handlers that read a form body and act on the passenger collection. */
    predicate ReadsForm() {
      Signup? || CancelSubmit? || ViewSubmit?
    }
  }

  const NotFoundText := "404 Not Found"

  /** The (url, method) pairs the server answers other than with 404; the stylesheet path answers any method. */
  predicate IsKnown(url: string, verb: string) {
    || url == "/styles.css"
    || (url, verb) in {("/", "GET"), ("/book", "GET"), ("/signup", "POST"), ("/cancel", "GET"),
                       ("/cancel", "POST"), ("/view", "GET"), ("/view", "POST")}
  }

  /**
   * The dispatch chain, in the order the server tests it. Its contract is the
   * route table read independently of that order: each handler is selected by
   * exactly the requests listed for it, and every other request gets NotFound.
   */
  function Route(url: string, verb: string): (h: Handler)
    ensures h.Stylesheet? <==> url == "/styles.css"
    ensures h.Home? <==> url == "/" && verb == "GET"
    ensures h.BookForm? <==> url == "/book" && verb == "GET"
    ensures h.Signup? <==> url == "/signup" && verb == "POST"
    ensures h.CancelForm? <==> url == "/cancel" && verb == "GET"
    ensures h.CancelSubmit? <==> url == "/cancel" && verb == "POST"
    ensures h.ViewForm? <==> url == "/view" && verb == "GET"
    ensures h.ViewSubmit? <==> url == "/view" && verb == "POST"
    ensures h.NotFound? <==> !IsKnown(url, verb)
  {
    if url == "/styles.css" then Stylesheet
    else if url == "/" && verb == "GET" then Home
    else if url == "/book" && verb == "GET" then BookForm
    else if url == "/signup" && verb == "POST" then Signup
    else if url == "/cancel" && verb == "GET" then CancelForm
    else if url == "/cancel" && verb == "POST" then CancelSubmit
    else if url == "/view" && verb == "GET" then ViewForm
    else if url == "/view" && verb == "POST" then ViewSubmit
    else NotFound
  }

  /**
   * The response of a handler that reads no form: a static document with
   * status 200, or the fixed 404 text.
   */
  function StaticResponse(h: Handler): (r: Response)
    requires !h.ReadsForm()
    ensures r.status == 200 <==> !h.NotFound?
    ensures h.NotFound? ==> r == Response(404, "text/html", Text(NotFoundText))
    ensures !h.NotFound? ==> r.body.Asset?
    ensures r.contentType == if h.Stylesheet? then "text/css" else "text/html"
  {
    match h
    case Stylesheet => Response(200, "text/css", Asset("styles.css"))
    case Home => Response(200, "text/html", Asset("index.html"))
    case BookForm => Response(200, "text/html", Asset("book.html"))
    case CancelForm => Response(200, "text/html", Asset("cancel.html"))
    case ViewForm => Response(200, "text/html", Asset("view.html"))
    case NotFound => Response(404, "text/html", Text(NotFoundText))
  }

  /** The stylesheet is served whatever the method, because its test comes first and ignores the method. */
  lemma StylesheetAnyMethod(verb: string)
    ensures StaticResponse(Route("/styles.css", verb)) == Response(200, "text/css", Asset("styles.css"))
  {
  }

  /** Any request outside the route table is answered 404 with the fixed body. */
  lemma UnknownIsNotFound(url: string, verb: string)
    requires !IsKnown(url, verb)
    ensures StaticResponse(Route(url, verb)) == Response(404, "text/html", Text(NotFoundText))
  {
  }
}
