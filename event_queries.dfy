/** The read-only event handlers: the filtered listing, the lookup by id and
    the host-only participant list. None of them changes the store. */
module EventQueries {
  import opened Results
  import opened EventModel
  import Ascii

  /** The query string of a listing request. A string parameter that is ""
      was not supplied (it is falsy); the numeric ones hold the parsed value
      when the parameter is a non-empty string, so a `maxFee` of "0" filters. */
  datatype Query = Query(
    category: string,
    skillLevel: string,
    maxFee: Option<int>,
    search: string,
    startDate: Option<int>,
    endDate: Option<int>)

  /** A request with no query parameters. */
  const NoQuery := Query("", "", None, "", None, None)

  predicate IsPrefix(p: string, s: string)
  {
    |p| <= |s| && s[..|p|] == p
  }

  /** Whether `pattern` occurs in `text`, scanning from the front. */
  function Contains(text: string, pattern: string): bool
    decreases |text|
  {
    IsPrefix(pattern, text) || (text != [] && Contains(text[1..], pattern))
  }

  /** The scan finds `pattern` exactly when it occurs at some offset of `text`. */
  lemma {:induction false} ContainsIffOccurs(text: string, pattern: string)
    ensures Contains(text, pattern) <==> exists i :: 0 <= i <= |text| && IsPrefix(pattern, text[i..])
    decreases |text|
  {
    if text != [] {
      ContainsIffOccurs(text[1..], pattern);
      forall i | 1 <= i <= |text|
        ensures text[i..] == text[1..][i - 1..]
      {
      }
      if exists i :: 0 <= i <= |text| && IsPrefix(pattern, text[i..]) {
        var i :| 0 <= i <= |text| && IsPrefix(pattern, text[i..]);
        if i == 0 {
          assert text[0..] == text;
        } else {
          assert IsPrefix(pattern, text[1..][i - 1..]);
        }
      }
      if Contains(text, pattern) && IsPrefix(pattern, text) {
        assert text[0..] == text;
      }
    } else {
      assert text[0..] == text;
    }
  }

  /** The `search` filter: a case-insensitive substring match on the title. */
  predicate TitleMatches(title: string, search: string)
  {
    Contains(Ascii.Lower(title), Ascii.Lower(search))
  }

  /** The conjunction of the supplied filters; the fee and date bounds are inclusive. */
  predicate Matches(e: Event, q: Query)
  {
    && (q.category == "" || e.category == q.category)
    && (q.skillLevel == "" || e.skillLevel == q.skillLevel)
    && (q.maxFee.None? || e.entryFee <= q.maxFee.value)
    && (q.search == "" || TitleMatches(e.title, q.search))
    && (q.startDate.None? || q.startDate.value <= e.date)
    && (q.endDate.None? || e.date <= q.endDate.value)
  }

  /** `getAllEvents`: the stored events that satisfy every supplied filter. */
  function GetAllEvents(events: seq<Event>, q: Query): (r: seq<Event>)
    ensures |r| <= |events|
    ensures forall e :: e in r <==> e in events && Matches(e, q)
  {
    if events == [] then []
    else (if Matches(events[0], q) then [events[0]] else []) + GetAllEvents(events[1..], q)
  }

  /** The listing keeps store order: listing a concatenation lists each part in turn. */
  lemma {:induction false} GetAllEventsKeepsOrder(a: seq<Event>, b: seq<Event>, q: Query)
    ensures GetAllEvents(a + b, q) == GetAllEvents(a, q) + GetAllEvents(b, q)
  {
    if a == [] {
      assert a + b == b;
    } else {
      assert (a + b)[0] == a[0];
      assert (a + b)[1..] == a[1..] + b;
      GetAllEventsKeepsOrder(a[1..], b, q);
    }
  }

  /** A request without parameters lists every event, in store order. */
  lemma {:induction false} GetAllEventsWithoutQuery(events: seq<Event>)
    ensures GetAllEvents(events, NoQuery) == events
  {
    if events != [] {
      GetAllEventsWithoutQuery(events[1..]);
    }
  }

  /** A filter that no event satisfies lists nothing; it is not an error. */
  lemma GetAllEventsUnmatched(events: seq<Event>, q: Query)
    requires forall e :: e in events ==> !Matches(e, q)
    ensures GetAllEvents(events, q) == []
  {
  }

  /** Both ends of the fee and date bounds are included. */
  lemma BoundsAreInclusive(e: Event)
    ensures Matches(e, Query("", "", Some(e.entryFee), "", Some(e.date), Some(e.date)))
  {
  }

  /** Each date bound applies on its own when the other one is left out. */
  lemma DateBoundsAreIndependent(e: Event, d: int)
    ensures Matches(e, Query("", "", None, "", Some(d), None)) <==> d <= e.date
    ensures Matches(e, Query("", "", None, "", None, Some(d))) <==> e.date <= d
  {
  }

  /** Lower(Upper(s)) == Lower(s): the case of the search text does not matter. */
  lemma LowerOfUpper(s: string)
    ensures Ascii.Lower(Ascii.Upper(s)) == Ascii.Lower(s)
  {
  }

  /** The search ignores case: an upper-cased search text matches the same titles. */
  lemma SearchIgnoresCase(title: string, search: string)
    ensures TitleMatches(title, Ascii.Upper(search)) == TitleMatches(title, search)
  {
    LowerOfUpper(search);
  }

  /** An event's own title, in any case, matches the search. */
  lemma TitleMatchesItself(title: string)
    ensures TitleMatches(title, Ascii.Upper(title))
  {
    LowerOfUpper(title);
    var t := Ascii.Lower(title);
    assert t[..|t|] == t;
  }

  /** `getEventById`: the event with that id, or NotFound. */
  function GetEventById(events: seq<Event>, id: EventId): (r: Result<Event, Error>)
    ensures r.Ok? <==> exists i :: 0 <= i < |events| && events[i].id == id
    ensures r.Ok? ==> r.value in events && r.value.id == id
    ensures r.Err? ==> r.error == EventNotFound && r.error.Status() == 404
  {
    match FindIndex(events, id)
    case None => Err(EventNotFound)
    case Some(i) => Ok(events[i])
  }

  /** `getEventParticipants`: NotFound for an unknown id, Forbidden for anyone
      but the host, and otherwise the participants in registration order. */
  function GetEventParticipants(events: seq<Event>, id: EventId, caller: UserId): (r: Result<seq<UserId>, Error>)
    ensures r == Err(EventNotFound) <==> forall i :: 0 <= i < |events| ==> events[i].id != id
    ensures r.Ok? ==> exists i :: 0 <= i < |events| && events[i].id == id
                       && IsOwner(events[i], caller) && r.value == events[i].registeredParticipants
    ensures r.Err? && r.error != EventNotFound ==>
              r.error == NotAuthorizedToViewParticipants
              && exists i :: 0 <= i < |events| && events[i].id == id && !IsOwner(events[i], caller)
    ensures r.Err? ==> r.error.Status() == if r.error == EventNotFound then 404 else 403
  {
    match FindIndex(events, id)
    case None => Err(EventNotFound)
    case Some(i) =>
      if !IsOwner(events[i], caller) then Err(NotAuthorizedToViewParticipants)
      else Ok(events[i].registeredParticipants)
  }

  /** With unique ids, the host of the event sees exactly its participant list. */
  lemma HostSeesParticipants(events: seq<Event>, i: nat)
    requires IdsUnique(events) && i < |events|
    ensures GetEventParticipants(events, events[i].id, events[i].host)
         == Ok(events[i].registeredParticipants)
  {
    FindIndexUnique(events, i);
  }

  /** With unique ids, anyone but the host is refused. */
  lemma OthersCannotSeeParticipants(events: seq<Event>, i: nat, caller: UserId)
    requires IdsUnique(events) && i < |events| && caller != events[i].host
    ensures GetEventParticipants(events, events[i].id, caller)
         == Err(NotAuthorizedToViewParticipants)
  {
    FindIndexUnique(events, i);
  }
}
