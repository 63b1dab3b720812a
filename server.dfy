/**
 * The request callback of the server: route the request, and for the form
 * handlers buffer the body, parse it and run the handler on the collection.
 */
module Server {
  import opened Http
  import opened Bookings
  import Chunks
  import Strings

  /**
   * One request. `chunks` are the body's 'data' events in arrival order,
   * `parse` stands for URLSearchParams, `now` for Date.now(), `upper` for
   * toUpperCase, `storeOk` for the store accepting the operation and
   * `formats` for the number and date printing of the details page.
   */
  method Handle(db: PassengerStore, url: string, verb: string, chunks: seq<string>,
                parse: string -> Form, now: nat, upper: string -> string, storeOk: bool, formats: Formats)
    returns (resp: Response)
    requires db.Valid()
    requires Route(url, verb).Signup? ==> "name" in parse(Strings.Concat(chunks))
    modifies db
    ensures db.Valid()
    ensures var form := parse(Strings.Concat(chunks));
      match Route(url, verb)
      case Signup => Step(db.records, resp) == RegisterStep(old(db.records), form, now, upper, storeOk)
      case CancelSubmit => Step(db.records, resp) == CancelStep(old(db.records), Field(form, "pnr"), storeOk)
      case ViewSubmit => db.records == old(db.records) && resp == ViewReply(db.records, Field(form, "pnr"), storeOk, formats)
      case h => db.records == old(db.records) && resp == StaticResponse(h)
  {
    var h := Route(url, verb);
    if h.ReadsForm() {
      var rawdata := Chunks.ReadBody(chunks);
      var form := parse(rawdata);
      if h.Signup? {
        resp := db.Register(form, now, upper, storeOk);
      } else if h.CancelSubmit? {
        resp := db.Cancel(form, storeOk);
      } else {
        resp := db.View(form, storeOk, formats);
      }
    } else {
      resp := StaticResponse(h);
    }
  }
}
