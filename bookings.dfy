/**
 * The passenger collection and the three form handlers that act on it:
 * register (save a new document), cancel (deleteOne by pnr) and view
 * (findOne by pnr). The collection is a table keyed by pnr, which is how
 * the schema's unique index on pnr is kept.
 */
module Bookings {
  import opened Optional
  import opened Http
  import Pnr
  import opened Strings

  /** A parsed form body: each field name with its first value, as URLSearchParams.get reads it. */
  type Form = map<string, string>

  function Field(form: Form, key: string): Option<string>
  {
    if key in form then Some(form[key]) else None
  }

  /**
   * One passenger document. age, startDate and endDate hold the form text
   * the server coerces with Number(...) and new Date(...) (None when the
   * field was absent); the coerced values themselves are not modelled.
   */
  datatype Passenger = Passenger(
    name: string,
    age: Option<string>,
    departure: string,
    arrival: string,
    startDate: Option<string>,
    endDate: Option<string>,
    pnr: string)

  /** The collection, indexed by pnr. */
  type Table = map<string, Passenger>

  /** The unique index: every document is stored under its own pnr, so no two documents share one. */
  predicate KeyedByPnr(t: Table) {
    forall k :: k in t ==> t[k].pnr == k
  }

  /** A response written with Content-Type text/html and a text body, as all three handlers do. */
  function Html(status: nat, text: string): Response {
    Response(status, "text/html", Text(text))
  }

  const RegisteredText := "Passenger registered successfully! Your PNR is: "
  const RegisterErrorText := "An error occurred while processing your registration."
  const CancelledText := "Booking cancelled successfully!"
  const NoBookingText := "No booking found with the provided PNR."
  const CancelErrorText := "An error occurred while processing your cancellation."
  const NoPassengerText := "No passenger found with the provided PNR."
  const ViewErrorText := "An error occurred while processing your request."

  /** The schema's `required` check on a String path: present and not the empty string. */
  predicate RequiredText(v: Option<string>) {
    v.Some? && v.value != ""
  }

  /** new Passenger({...}) from the form, if it passes the required checks on its String paths. */
  function NewDocument(form: Form, pnr: string): (d: Option<Passenger>)
    requires "name" in form
    ensures d.Some? <==> form["name"] != "" && RequiredText(Field(form, "departure")) && RequiredText(Field(form, "arrival"))
    ensures d.Some? ==>
              && d.value.pnr == pnr
              && d.value.name == form["name"]
              && Field(form, "departure") == Some(d.value.departure)
              && Field(form, "arrival") == Some(d.value.arrival)
              && d.value.age == Field(form, "age")
              && d.value.startDate == Field(form, "startDate")
              && d.value.endDate == Field(form, "endDate")
  {
    var departure := Field(form, "departure");
    var arrival := Field(form, "arrival");
    if form["name"] != "" && RequiredText(departure) && RequiredText(arrival) then
      Some(Passenger(form["name"], Field(form, "age"), departure.value, arrival.value,
                     Field(form, "startDate"), Field(form, "endDate"), pnr))
    else
      None
  }

  /**
   * Whether save() succeeds: no document holds the pnr yet, the document
   * passes validation, and the store accepts it (storeOk stands for every
   * other cause of failure: casting of age and dates, connectivity).
   */
  predicate Saves(t: Table, form: Form, pnr: string, storeOk: bool)
    requires "name" in form
  {
    pnr !in t && NewDocument(form, pnr).Some? && storeOk
  }

  /** The collection after a handler, with the response it wrote. */
  datatype Step = Step(table: Table, response: Response)

  /** The code registration derives from the submitted name. */
  function PnrFor(form: Form, now: nat, upper: string -> string): string
    requires "name" in form
  {
    Pnr.Derive(form["name"], now, upper)
  }

  /**
   * POST /signup. On success the collection gains exactly one document,
   * under the derived pnr, holding the submitted fields, and nothing else
   * changes; on failure, a colliding pnr included, it is unchanged.
   */
  function RegisterStep(t: Table, form: Form, now: nat, upper: string -> string, storeOk: bool): (r: Step)
    requires "name" in form
    ensures KeyedByPnr(t) ==> KeyedByPnr(r.table)
    ensures var pnr := PnrFor(form, now, upper);
            r.response.status == 200 <==> Saves(t, form, pnr, storeOk)
    ensures var pnr := PnrFor(form, now, upper);
            Saves(t, form, pnr, storeOk) ==>
              && r.response == Html(200, RegisteredText + pnr)
              && r.table.Keys == t.Keys + {pnr}
              && |r.table| == |t| + 1
              && (forall k :: k in t ==> r.table[k] == t[k])
              && r.table[pnr].pnr == pnr
              && r.table[pnr].name == form["name"]
              && Field(form, "departure") == Some(r.table[pnr].departure)
              && Field(form, "arrival") == Some(r.table[pnr].arrival)
              && r.table[pnr].age == Field(form, "age")
              && r.table[pnr].startDate == Field(form, "startDate")
              && r.table[pnr].endDate == Field(form, "endDate")
    ensures var pnr := PnrFor(form, now, upper);
            !Saves(t, form, pnr, storeOk) ==> r == Step(t, Html(500, RegisterErrorText))
  {
    var pnr := PnrFor(form, now, upper);
    if Saves(t, form, pnr, storeOk) then
      Step(t[pnr := NewDocument(form, pnr).value], Html(200, RegisteredText + pnr))
    else
      Step(t, Html(500, RegisterErrorText))
  }

  /**
   * POST /cancel. deleteOne removes at most one document, the one keyed by
   * the given pnr; the reply depends on whether one was removed. A missing
   * pnr field matches no document.
   */
  function CancelStep(t: Table, pnr: Option<string>, storeOk: bool): (r: Step)
    ensures KeyedByPnr(t) ==> KeyedByPnr(r.table)
    ensures r.table.Keys <= t.Keys && |t| - |r.table| <= 1
    ensures forall k :: k in r.table ==> r.table[k] == t[k]
    ensures !storeOk ==> r == Step(t, Html(500, CancelErrorText))
    ensures storeOk && pnr.Some? && pnr.value in t ==>
              r.table.Keys == t.Keys - {pnr.value} && r.response == Html(200, CancelledText)
    ensures storeOk && !(pnr.Some? && pnr.value in t) ==> r == Step(t, Html(200, NoBookingText))
  {
    if !storeOk then
      Step(t, Html(500, CancelErrorText))
    else
      var deletedCount := if pnr.Some? && pnr.value in t then 1 else 0;
      var rest := if deletedCount > 0 then t - {pnr.value} else t;
      Step(rest, Html(200, if deletedCount > 0 then CancelledText else NoBookingText))
  }

  /** How the details page prints the coerced values: Number's toString and toLocaleDateString. */
  datatype Formats = Formats(number: Option<string> -> string, localeDate: Option<string> -> string)

  function Line(caption: string, value: string): string {
    "<p>" + caption + ": " + value + "</p>"
  }

  /** The paragraphs of the details page, one per field, in the order the page prints them. */
  function DetailsLines(p: Passenger, f: Formats): seq<string> {
    [ Line("Name", p.name),
      Line("Age", f.number(p.age)),
      Line("Departure", p.departure),
      Line("Arrival", p.arrival),
      Line("Start Date", f.localeDate(p.startDate)),
      Line("End Date", f.localeDate(p.endDate)),
      Line("PNR", p.pnr) ]
  }

  const DetailsHeading := "<h1>Passenger Details</h1>"

  /** The details page of a found document: the heading, then every paragraph, in order. */
  function DetailsPage(p: Passenger, f: Formats): (page: string)
    ensures DetailsHeading <= page
    ensures forall i :: 0 <= i < |DetailsLines(p, f)| ==> Contains(page, DetailsLines(p, f)[i])
  {
    EachPartShown(DetailsHeading, DetailsLines(p, f));
    DetailsHeading + Concat(DetailsLines(p, f))
  }

  /** POST /view: findOne by pnr, rendering the details page or the not-found text. */
  function ViewReply(t: Table, pnr: Option<string>, storeOk: bool, f: Formats): (r: Response)
    ensures !storeOk ==> r == Html(500, ViewErrorText)
    ensures storeOk && pnr.Some? && pnr.value in t ==> r == Html(200, DetailsPage(t[pnr.value], f))
    ensures storeOk && !(pnr.Some? && pnr.value in t) ==> r == Html(200, NoPassengerText)
  {
    if !storeOk then Html(500, ViewErrorText)
    else if pnr.Some? && pnr.value in t then Html(200, DetailsPage(t[pnr.value], f))
    else Html(200, NoPassengerText)
  }

  /** The details page shows the document's name, age, departure, arrival, dates and pnr. */
  lemma DetailsShowFields(p: Passenger, f: Formats)
    ensures var page := DetailsPage(p, f);
      && Contains(page, Line("Name", p.name))
      && Contains(page, Line("Age", f.number(p.age)))
      && Contains(page, Line("Departure", p.departure))
      && Contains(page, Line("Arrival", p.arrival))
      && Contains(page, Line("Start Date", f.localeDate(p.startDate)))
      && Contains(page, Line("End Date", f.localeDate(p.endDate)))
      && Contains(page, Line("PNR", p.pnr))
  {
    var lines := DetailsLines(p, f);
    assert lines[0] == Line("Name", p.name);
    assert lines[1] == Line("Age", f.number(p.age));
    assert lines[2] == Line("Departure", p.departure);
    assert lines[3] == Line("Arrival", p.arrival);
    assert lines[4] == Line("Start Date", f.localeDate(p.startDate));
    assert lines[5] == Line("End Date", f.localeDate(p.endDate));
    assert lines[6] == Line("PNR", p.pnr);
  }

  /** A successful registration is visible to view at once, with what was submitted. */
  lemma RegisterThenView(t: Table, form: Form, now: nat, upper: string -> string, f: Formats)
    requires "name" in form
    requires Saves(t, form, PnrFor(form, now, upper), true)
    ensures var pnr := PnrFor(form, now, upper);
      var page := DetailsPage(RegisterStep(t, form, now, upper, true).table[pnr], f);
      && ViewReply(RegisterStep(t, form, now, upper, true).table, Some(pnr), true, f) == Html(200, page)
      && Contains(page, Line("Name", form["name"]))
      && Contains(page, Line("PNR", pnr))
  {
    var pnr := PnrFor(form, now, upper);
    DetailsShowFields(RegisterStep(t, form, now, upper, true).table[pnr], f);
  }

  /**
   * Two registrations whose names share their first three characters, in
   * the same millisecond: the second fails and the first document stays.
   */
  lemma SameMillisecondCollides(t: Table, form1: Form, form2: Form, now: nat, upper: string -> string, storeOk: bool)
    requires "name" in form1 && "name" in form2
    requires Pnr.Prefix(form1["name"]) == Pnr.Prefix(form2["name"])
    requires Saves(t, form1, PnrFor(form1, now, upper), true)
    ensures var first := RegisterStep(t, form1, now, upper, true);
      var second := RegisterStep(first.table, form2, now, upper, storeOk);
      && second == Step(first.table, Html(500, RegisterErrorText))
      && second.table[PnrFor(form1, now, upper)] == first.table[PnrFor(form1, now, upper)]
  {
    assert PnrFor(form1, now, upper) == PnrFor(form2, now, upper);
  }

  /** Cancelling the booking just registered restores the collection and reports success. */
  lemma CancelUndoesRegister(t: Table, form: Form, now: nat, upper: string -> string)
    requires "name" in form
    requires Saves(t, form, PnrFor(form, now, upper), true)
    ensures var pnr := PnrFor(form, now, upper);
      CancelStep(RegisterStep(t, form, now, upper, true).table, Some(pnr), true) == Step(t, Html(200, CancelledText))
  {
    var pnr := PnrFor(form, now, upper);
    var after := RegisterStep(t, form, now, upper, true).table;
    assert after - {pnr} == t;
  }

  /** After a successful cancel, view no longer finds the code. */
  lemma CancelThenView(t: Table, pnr: string, f: Formats)
    requires pnr in t
    ensures CancelStep(t, Some(pnr), true).response == Html(200, CancelledText)
    ensures ViewReply(CancelStep(t, Some(pnr), true).table, Some(pnr), true, f) == Html(200, NoPassengerText)
  {
  }

  /**
   * findOne({pnr}) matches on the document's pnr field; under the unique
   * index the document found under a key is the one with that code, so the
   * page shown is for the requested code.
   */
  lemma FoundCarriesCode(t: Table, pnr: string, f: Formats)
    requires KeyedByPnr(t) && pnr in t
    ensures ViewReply(t, Some(pnr), true, f).body.Text?
    ensures Contains(ViewReply(t, Some(pnr), true, f).body.text, Line("PNR", pnr))
  {
    DetailsShowFields(t[pnr], f);
  }

  /** deleteOne({pnr}) matches on the pnr field; after it no remaining document carries that code. */
  lemma CancelLeavesNoCode(t: Table, pnr: string)
    requires KeyedByPnr(t)
    ensures forall k :: k in CancelStep(t, Some(pnr), true).table ==> CancelStep(t, Some(pnr), true).table[k].pnr != pnr
  {
  }

  /**
   * The collection as the server holds it. Each handler method changes the
   * table as its step function says and writes that step's response.
   */
  class PassengerStore {
    var records: Table

    ghost predicate Valid()
      reads this
    {
      KeyedByPnr(records)
    }

    /** The model bound to the collection, holding the bookings it already stores. */
    constructor (initial: Table)
      requires KeyedByPnr(initial)
      ensures Valid() && records == initial
    {
      records := initial;
    }

    /** The 'end' callback of POST /signup, given the parsed form. */
    method Register(form: Form, now: nat, upper: string -> string, storeOk: bool) returns (resp: Response)
      requires Valid() && "name" in form
      modifies this
      ensures Valid()
      ensures Step(records, resp) == RegisterStep(old(records), form, now, upper, storeOk)
    {
      var pnr := Pnr.Derive(form["name"], now, upper);
      var doc := NewDocument(form, pnr);
      if pnr !in records && doc.Some? && storeOk {
        records := records[pnr := doc.value];
        resp := Html(200, RegisteredText + pnr);
      } else {
        resp := Html(500, RegisterErrorText);
      }
    }

    /** The 'end' callback of POST /cancel, given the parsed form. */
    method Cancel(form: Form, storeOk: bool) returns (resp: Response)
      requires Valid()
      modifies this
      ensures Valid()
      ensures Step(records, resp) == CancelStep(old(records), Field(form, "pnr"), storeOk)
    {
      var pnr := Field(form, "pnr");
      if !storeOk {
        resp := Html(500, CancelErrorText);
        return;
      }
      var deletedCount := 0;
      if pnr.Some? && pnr.value in records {
        records := records - {pnr.value};
        deletedCount := 1;
      }
      if deletedCount > 0 {
        resp := Html(200, CancelledText);
      } else {
        resp := Html(200, NoBookingText);
      }
    }

    /** The 'end' callback of POST /view, given the parsed form; it only reads the collection. */
    method View(form: Form, storeOk: bool, f: Formats) returns (resp: Response)
      ensures resp == ViewReply(records, Field(form, "pnr"), storeOk, f)
    {
      var pnr := Field(form, "pnr");
      if !storeOk {
        resp := Html(500, ViewErrorText);
      } else if pnr.Some? && pnr.value in records {
        resp := Html(200, DetailsPage(records[pnr.value], f));
      } else {
        resp := Html(200, NoPassengerText);
      }
    }
  }
}
