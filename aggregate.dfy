/** Per-account email and calendar records and their merge: each account
    contributes its records or exactly one error record, the lists are
    concatenated in account order and stably sorted by a string key. */
module Aggregate {
  import opened Wrappers
  import Text
  import Seqs
  import Credentials

  // ---------------------------------------------------------------------------
  // Email
  // ---------------------------------------------------------------------------

  datatype Header = Header(name: string, value: string)

  /** A message as the Gmail API returns it: id, metadata headers and an
      optional snippet. */
  datatype RawMessage = RawMessage(id: string, headers: seq<Header>, snippet: Option<string>)

  /** A merged email entry: a message, or an account's error record. */
  datatype EmailRecord =
    | Email(id: string, subject: string, sender: string, date: string, snippet: string, account: string)
    | EmailError(error: string, account: string)

  /** The value of a header as a dict built from the header list: a later
      header of the same name wins. */
  function HeaderValue(hs: seq<Header>, name: string): (r: Option<string>)
    ensures r.None? <==> forall h :: h in hs ==> h.name != name
    ensures r.Some? ==> Header(name, r.value) in hs
    ensures r.Some? ==> exists i :: 0 <= i < |hs| && hs[i] == Header(name, r.value)
                                    && forall j :: i < j < |hs| ==> hs[j].name != name
  {
    if |hs| == 0 then None
    else if hs[|hs| - 1].name == name then Some(hs[|hs| - 1].value)
    else
      var init := hs[..|hs| - 1];
      var r := HeaderValue(init, name);
      assert forall h :: h in init ==> h in hs;
      assert hs == init + [hs[|hs| - 1]];
      assert r.Some? ==> exists i :: 0 <= i < |hs| && hs[i] == Header(name, r.value)
                                     && forall j :: i < j < |hs| ==> hs[j].name != name by {
        if r.Some? {
          var i :| 0 <= i < |init| && init[i] == Header(name, r.value)
                   && forall j :: i < j < |init| ==> init[j].name != name;
          assert hs[i] == Header(name, r.value);
        }
      }
      r
  }

  /** One message's entry: subject, sender and date from the headers, with
      "(no subject)", "Unknown" and "" when a header is missing. */
  function BuildEmail(m: RawMessage, account: string): (r: EmailRecord)
    ensures r.Email? && r.id == m.id && r.account == account
    ensures r.date == "" <==> HeaderValue(m.headers, "Date").None? || HeaderValue(m.headers, "Date") == Some("")
    ensures HeaderValue(m.headers, "Subject").None? ==> r.subject == "(no subject)"
    ensures HeaderValue(m.headers, "From").None? ==> r.sender == "Unknown"
  {
    Email(m.id,
          HeaderValue(m.headers, "Subject").GetOr("(no subject)"),
          HeaderValue(m.headers, "From").GetOr("Unknown"),
          HeaderValue(m.headers, "Date").GetOr(""),
          m.snippet.GetOr(""),
          account)
  }

  function BuildEmails(ms: seq<RawMessage>, account: string): (r: seq<EmailRecord>)
    ensures |r| == |ms|
    ensures forall i :: 0 <= i < |r| ==> r[i] == BuildEmail(ms[i], account)
  {
    if |ms| == 0 then [] else [BuildEmail(ms[0], account)] + BuildEmails(ms[1..], account)
  }

  /** `fetch_emails`: no service gives the "Not authenticated" record, a
      failing listing gives a record with the exception text, otherwise one
      entry per message, in the order listed. */
  function EmailRecords(account: string, service: Option<Credentials.Service>, answer: Remote<seq<RawMessage>>)
    : (r: seq<EmailRecord>)
    ensures service.None? ==> r == [EmailError("Not authenticated: " + account, account)]
    ensures service.Some? && answer.Raises? ==> r == [EmailError(answer.message, account)]
    ensures service.Some? && answer.Answer? ==> r == BuildEmails(answer.value, account)
    ensures forall e :: e in r ==> e.account == account
  {
    if service.None? then [EmailError("Not authenticated: " + account, account)]
    else match answer
      case Raises(message) => [EmailError(message, account)]
      case Answer(ms) => BuildEmails(ms, account)
  }

  /** An account contributes either exactly one error record or only
      emails. */
  lemma EmailRecordsShape(account: string, service: Option<Credentials.Service>, answer: Remote<seq<RawMessage>>)
    ensures var r := EmailRecords(account, service, answer);
            (|r| == 1 && r[0].EmailError?) || (forall e :: e in r ==> e.Email?)
  {
  }

  /** The sort key `x.get('date', '')`: error records have none. */
  function DateKey(e: EmailRecord): string {
    if e.Email? then e.date else ""
  }

  /** The order of `sort(key=date, reverse=True)`: a greater date string
      first. */
  predicate LaterFirst(a: string, b: string) {
    Text.LexLess(b, a)
  }

  /** The merged emails: stably sorted by descending date string. */
  function SortEmails(es: seq<EmailRecord>): seq<EmailRecord> {
    Seqs.SortBy(es, DateKey, LaterFirst)
  }

  lemma LaterFirstOrder()
    ensures Seqs.StrictTotalOrder(LaterFirst)
  {
    forall a: string ensures !LaterFirst(a, a) {
      Text.LexLessIrreflexive(a);
    }
    forall a: string, b: string, c: string | LaterFirst(a, b) && LaterFirst(b, c)
      ensures LaterFirst(a, c)
    {
      Text.LexLessTransitive(c, b, a);
    }
    forall a: string, b: string ensures a == b || LaterFirst(a, b) || LaterFirst(b, a) {
      Text.LexLessTotal(a, b);
    }
  }

  /** The sorted emails are the merged ones, ordered by descending date, with
      equal dates in merge order. */
  lemma SortEmailsSpec(es: seq<EmailRecord>)
    ensures Seqs.StablySorted(SortEmails(es), es, DateKey, LaterFirst)
    ensures multiset(SortEmails(es)) == multiset(es)
  {
    LaterFirstOrder();
    Seqs.SortByStablySorted(es, DateKey, LaterFirst);
  }

  /** An error record sorts after every email with a non-empty date. */
  lemma EmailErrorsAfterDated(es: seq<EmailRecord>, i: int, j: int)
    requires var r := SortEmails(es); 0 <= i < j < |r| && r[i].EmailError?
    ensures DateKey(SortEmails(es)[j]) == ""
  {
    var r := SortEmails(es);
    SortEmailsSpec(es);
    assert !LaterFirst(DateKey(r[j]), DateKey(r[i]));
    Text.EmptyIsLeast(DateKey(r[j]));
  }

  // ---------------------------------------------------------------------------
  // Calendar
  // ---------------------------------------------------------------------------

  /** An event's `start` or `end` object: a `dateTime` for timed events, a
      `date` for all-day ones. */
  datatype EventTime = EventTime(dateTime: Option<string>, date: Option<string>)

  /** `t.get('dateTime', t.get('date', ''))`. */
  function TimeText(t: EventTime): (r: string)
    ensures t.dateTime.Some? ==> r == t.dateTime.value
    ensures t.dateTime.None? && t.date.Some? ==> r == t.date.value
    ensures t.dateTime.None? && t.date.None? ==> r == ""
  {
    match t.dateTime
    case Some(s) => s
    case None => t.date.GetOr("")
  }

  /** All-day: a `date` and no `dateTime`. */
  predicate AllDay(t: EventTime) {
    t.date.Some? && t.dateTime.None?
  }

  datatype RawEvent = RawEvent(
    id: Option<string>, summary: Option<string>, description: Option<string>, location: Option<string>,
    start: EventTime, end: EventTime, status: Option<string>, htmlLink: Option<string>)

  /** One calendar of an account: its id, its optional title and the answer
      to listing its events in the window. */
  datatype CalendarFeed = CalendarFeed(id: string, summary: Option<string>, events: Remote<seq<RawEvent>>)

  /** The extra fields of the upcoming-events entries. */
  datatype EventDetails = EventDetails(description: string, status: string, htmlLink: string)

  datatype EventRecord =
    | Event(id: Option<string>, summary: string, start: string, end: string, allDay: bool,
            location: string, calendar: string, account: string, details: Option<EventDetails>)
    | EventError(error: string, account: string)

  /** One event's entry; `detailed` adds the fields the upcoming-events
      listing carries and today's listing does not. */
  function BuildEvent(e: RawEvent, calendar: string, account: string, detailed: bool): (r: EventRecord)
    ensures r.Event? && r.account == account && r.calendar == calendar
    ensures r.start == TimeText(e.start) && r.end == TimeText(e.end)
    ensures r.allDay <==> AllDay(e.start)
    ensures r.details.Some? <==> detailed
  {
    Event(e.id, e.summary.GetOr("(Kein Titel)"), TimeText(e.start), TimeText(e.end), AllDay(e.start),
          e.location.GetOr(""), calendar, account,
          if detailed then Some(EventDetails(e.description.GetOr(""), e.status.GetOr("confirmed"), e.htmlLink.GetOr("")))
          else None)
  }

  function BuildEvents(es: seq<RawEvent>, calendar: string, account: string, detailed: bool): (r: seq<EventRecord>)
    ensures |r| == |es|
    ensures forall i :: 0 <= i < |r| ==> r[i] == BuildEvent(es[i], calendar, account, detailed)
  {
    if |es| == 0 then [] else [BuildEvent(es[0], calendar, account, detailed)] + BuildEvents(es[1..], calendar, account, detailed)
  }

  /** One calendar's entries: none when its listing raises, otherwise its
      events in the order listed, named by the calendar's title, or its id
      when it has none. */
  function FeedEvents(f: CalendarFeed, account: string, detailed: bool): (r: seq<EventRecord>)
    ensures f.events.Raises? ==> r == []
    ensures f.events.Answer? ==> r == BuildEvents(f.events.value, f.summary.GetOr(f.id), account, detailed)
    ensures forall e :: e in r ==> e.Event? && e.account == account
  {
    match f.events
    case Raises(_) => []
    case Answer(es) => BuildEvents(es, f.summary.GetOr(f.id), account, detailed)
  }

  /** The events of all calendars, calendar after calendar. */
  function CalendarEvents(feeds: seq<CalendarFeed>, account: string, detailed: bool): (r: seq<EventRecord>)
    ensures forall e :: e in r ==> e.Event? && e.account == account
  {
    if |feeds| == 0 then []
    else FeedEvents(feeds[0], account, detailed) + CalendarEvents(feeds[1..], account, detailed)
  }

  /** A single calendar contributes exactly its own entries. */
  lemma CalendarEventsOne(f: CalendarFeed, account: string, detailed: bool)
    ensures CalendarEvents([f], account, detailed) == FeedEvents(f, account, detailed)
  {
    assert [f][1..] == [];
  }

  /** The entries of several calendars are those of each in turn; with
      `CalendarEventsOne` and `FeedEvents` this says every answering
      calendar's events are kept in order and a raising calendar is
      skipped. */
  lemma {:induction false} CalendarEventsConcat(a: seq<CalendarFeed>, b: seq<CalendarFeed>, account: string, detailed: bool)
    ensures CalendarEvents(a + b, account, detailed) == CalendarEvents(a, account, detailed) + CalendarEvents(b, account, detailed)
  {
    if |a| == 0 {
      assert a + b == b;
    } else {
      assert (a + b)[0] == a[0];
      assert (a + b)[1..] == a[1..] + b;
      CalendarEventsConcat(a[1..], b, account, detailed);
    }
  }

  /** `fetch_todays_events` / `fetch_calendar_events`: no service gives the
      "Not authenticated for calendar" record, a failing calendar list gives
      a record with the exception text, otherwise the events of the account
      sorted by start. */
  function EventRecords(account: string, service: Option<Credentials.Service>,
                        answer: Remote<seq<CalendarFeed>>, detailed: bool): (r: seq<EventRecord>)
    ensures service.None? ==> r == [EventError("Not authenticated for calendar: " + account, account)]
    ensures service.Some? && answer.Raises? ==> r == [EventError(answer.message, account)]
    ensures service.Some? && answer.Answer? ==> r == SortEvents(CalendarEvents(answer.value, account, detailed))
    ensures forall e :: e in r ==> e.account == account
  {
    if service.None? then [EventError("Not authenticated for calendar: " + account, account)]
    else match answer
      case Raises(message) => [EventError(message, account)]
      case Answer(feeds) => SortEvents(CalendarEvents(feeds, account, detailed))
  }

  /** An account contributes either exactly one error record or only
      events. */
  lemma EventRecordsShape(account: string, service: Option<Credentials.Service>,
                          answer: Remote<seq<CalendarFeed>>, detailed: bool)
    ensures var r := EventRecords(account, service, answer, detailed);
            (|r| == 1 && r[0].EventError?) || (forall e :: e in r ==> e.Event?)
  {
  }

  /** The sort key `x.get('start', '')`: error records have none. */
  function StartKey(e: EventRecord): string {
    if e.Event? then e.start else ""
  }

  /** Events stably sorted by ascending start string. */
  function SortEvents(es: seq<EventRecord>): (r: seq<EventRecord>)
    ensures multiset(r) == multiset(es)
    ensures forall e :: e in r <==> e in es
  {
    var r := Seqs.SortBy(es, StartKey, Text.LexLess);
    assert forall e :: e in r <==> e in es by {
      forall e ensures e in r <==> e in es {
        assert e in r <==> e in multiset(r);
        assert e in es <==> e in multiset(es);
      }
    }
    r
  }

  lemma LexLessOrder()
    ensures Seqs.StrictTotalOrder(Text.LexLess)
  {
    forall a: string ensures !Text.LexLess(a, a) {
      Text.LexLessIrreflexive(a);
    }
    forall a: string, b: string, c: string | Text.LexLess(a, b) && Text.LexLess(b, c)
      ensures Text.LexLess(a, c)
    {
      Text.LexLessTransitive(a, b, c);
    }
    forall a: string, b: string ensures a == b || Text.LexLess(a, b) || Text.LexLess(b, a) {
      Text.LexLessTotal(a, b);
    }
  }

  /** The sorted events are the merged ones, ordered by ascending start, with
      equal starts in merge order. */
  lemma SortEventsSpec(es: seq<EventRecord>)
    ensures Seqs.StablySorted(SortEvents(es), es, StartKey, Text.LexLess)
  {
    LexLessOrder();
    Seqs.SortByStablySorted(es, StartKey, Text.LexLess);
  }

  /** An error record sorts before every event with a non-empty start. */
  lemma EventErrorsBeforeTimed(es: seq<EventRecord>, i: int, j: int)
    requires var r := SortEvents(es); 0 <= i < j < |r| && r[j].EventError?
    ensures StartKey(SortEvents(es)[i]) == ""
  {
    var r := SortEvents(es);
    SortEventsSpec(es);
    assert !Text.LexLess(StartKey(r[j]), StartKey(r[i]));
    Text.EmptyIsLeast(StartKey(r[i]));
  }

  /** The accounts' event lists, one after another. */
  function ConcatEvents(xs: seq<seq<EventRecord>>): seq<EventRecord> {
    if |xs| == 0 then [] else xs[0] + ConcatEvents(xs[1..])
  }

  /** The accounts' event lists, each sorted first, one after another: what
      `/calendar/today` merges, since every account's fetch sorts its own
      events. */
  function ConcatSortedEvents(xs: seq<seq<EventRecord>>): seq<EventRecord> {
    if |xs| == 0 then [] else SortEvents(xs[0]) + ConcatSortedEvents(xs[1..])
  }

  /** Sorting by start a second time changes nothing. */
  lemma SortEventsIdempotent(es: seq<EventRecord>)
    ensures SortEvents(SortEvents(es)) == SortEvents(es)
  {
    LexLessOrder();
    Seqs.SortConcatOfSorted(es, [], StartKey, Text.LexLess);
    assert es + [] == es;
    assert SortEvents(es) + [] == SortEvents(es);
  }

  /** For any number of accounts, sorting each account's events before the
      final merge sort changes nothing: the merged result is the stable sort
      of the accounts' unsorted lists, one after another. */
  lemma {:induction false} PresortIrrelevant(xs: seq<seq<EventRecord>>)
    ensures SortEvents(ConcatSortedEvents(xs)) == SortEvents(ConcatEvents(xs))
  {
    if |xs| > 0 {
      PresortIrrelevant(xs[1..]);
      LexLessOrder();
      var rest := ConcatSortedEvents(xs[1..]);
      Seqs.SortConcatOfSorted(SortEvents(xs[0]), rest, StartKey, Text.LexLess);
      SortEventsIdempotent(xs[0]);
      Seqs.SortConcatOfSorted(xs[0], ConcatEvents(xs[1..]), StartKey, Text.LexLess);
    }
  }

  // ---------------------------------------------------------------------------
  // Account status
  // ---------------------------------------------------------------------------

  /** `/gmail/status`: every non-empty account mapped to whether it has a
      stored credential ("authenticated") or not ("not_authenticated"). */
  method AccountStatus(accounts: seq<string>, has: string -> bool) returns (status: map<string, bool>)
    ensures status.Keys == set a | a in accounts && a != ""
    ensures forall a :: a in status ==> status[a] == has(a)
  {
    status := map[];
    var i := 0;
    while i < |accounts|
      invariant 0 <= i <= |accounts|
      invariant status.Keys == set a | a in accounts[..i] && a != ""
      invariant forall a :: a in status ==> status[a] == has(a)
    {
      var a := accounts[i];
      if a != "" {
        status := status[a := has(a)];
      }
      assert accounts[..i + 1] == accounts[..i] + [a];
      i := i + 1;
    }
    assert accounts[..i] == accounts;
  }
}
