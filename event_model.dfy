/** The event record, the caller's identity, the errors the event handlers
    throw, the access rules they apply and the pure parts of their updates. */
module EventModel {
  import opened Results

  /** User and event identifiers (MongoDB ObjectIds compared through `toString`). */
  type UserId = nat
  type EventId = nat

  /** A geographic point, as GeoJSON orders it: longitude, then latitude. */
  datatype Point = Point(longitude: int, latitude: int)

  /** An event document. `registeredParticipants` is kept in registration order. */
  datatype Event = Event(
    id: EventId,
    title: string,
    description: string,
    date: int,
    location: Point,
    category: string,
    skillLevel: string,
    entryFee: int,
    host: UserId,
    registeredParticipants: seq<UserId>)

  /** The authenticated caller of a request: its id and its role string. */
  datatype User = User(id: UserId, role: string)

  /** The errors the handlers throw; each sets an HTTP status and a message. */
  datatype Error =
    | EventNotFound
    | NotAHost
    | NotAuthorizedToUpdate
    | HostCannotRegister
    | AlreadyRegistered
    | NotAuthorizedToViewParticipants
  {
    function Status(): int
    {
      match this
      case EventNotFound => 404
      case NotAHost => 403
      case NotAuthorizedToUpdate => 403
      case HostCannotRegister => 400
      case AlreadyRegistered => 400
      case NotAuthorizedToViewParticipants => 403
    }

    function Message(): string
    {
      match this
      case EventNotFound => "Event not found"
      case NotAHost => "User is not a host"
      case NotAuthorizedToUpdate => "User not authorized to update this event"
      case HostCannotRegister => "Hosts cannot register for their own event"
      case AlreadyRegistered => "User already registered for this event"
      case NotAuthorizedToViewParticipants => "User is not authorized to view participants"
    }
  }

  /** The body of a create request. */
  datatype EventFields = EventFields(
    title: string,
    description: string,
    date: int,
    location: Point,
    category: string,
    skillLevel: string,
    entryFee: int)

  /** The body of an update request; `None` is a field the body leaves out
      (`undefined`). For `date` and `location`, `None` also stands for any
      other falsy value, since a supplied date string or location object is
      truthy. */
  datatype UpdateFields = UpdateFields(
    title: Option<string>,
    description: Option<string>,
    date: Option<int>,
    location: Option<Point>,
    category: Option<string>,
    skillLevel: Option<string>,
    entryFee: Option<int>)

  /** JavaScript truthiness of a possibly absent string: present and non-empty. */
  predicate Truthy(s: Option<string>)
  {
    s.Some? && s.value != ""
  }

  /** `a || b` on a possibly absent string. */
  function OrElse(a: Option<string>, b: string): string
  {
    if Truthy(a) then a.value else b
  }

  // Access policy

  /** Only a caller whose role is exactly "host" may create events. */
  predicate CanCreateEvent(caller: User)
  {
    caller.role == "host"
  }

  /** The caller owns the event when it is the event's host. */
  predicate IsOwner(e: Event, caller: UserId)
  {
    e.host == caller
  }

  // Invariants

  predicate NoDuplicates<T(==)>(s: seq<T>)
  {
    forall i, j :: 0 <= i < j < |s| ==> s[i] != s[j]
  }

  /** A participant appears at most once, and the host never appears. */
  predicate ParticipantsValid(e: Event)
  {
    NoDuplicates(e.registeredParticipants) && e.host !in e.registeredParticipants
  }

  predicate IdsUnique(events: seq<Event>)
  {
    forall i, j :: 0 <= i < j < |events| ==> events[i].id != events[j].id
  }

  // Lookup

  /** `Event.findById`: the position of the event with that id, if any. */
  function FindIndex(events: seq<Event>, id: EventId): (r: Option<nat>)
    ensures r.Some? ==> r.value < |events| && events[r.value].id == id
    ensures r.Some? ==> forall j :: 0 <= j < r.value ==> events[j].id != id
    ensures r.None? <==> forall j :: 0 <= j < |events| ==> events[j].id != id
  {
    if events == [] then None
    else if events[0].id == id then Some(0)
    else match FindIndex(events[1..], id)
      case None => None
      case Some(k) => Some(k + 1)
  }

  /** With unique ids, the lookup finds exactly the position that holds the id. */
  lemma {:induction false} FindIndexUnique(events: seq<Event>, i: nat)
    requires IdsUnique(events) && i < |events|
    ensures FindIndex(events, events[i].id) == Some(i)
  {
  }

  // Updates

  /** The new document of `createEvent`: the supplied fields, the caller as
      host and no participants. */
  function NewEvent(id: EventId, fields: EventFields, host: UserId): Event
  {
    Event(id, fields.title, fields.description, fields.date, fields.location,
          fields.category, fields.skillLevel, fields.entryFee, host, [])
  }

  /** The partial overwrite of `updateEvent`. */
  function ApplyUpdate(e: Event, u: UpdateFields): (r: Event)
    ensures r.id == e.id && r.host == e.host
    ensures r.registeredParticipants == e.registeredParticipants
  {
    e.(title := OrElse(u.title, e.title),
       description := OrElse(u.description, e.description),
       date := if u.date.Some? then u.date.value else e.date,
       location := if u.location.Some? then u.location.value else e.location,
       category := OrElse(u.category, e.category),
       skillLevel := OrElse(u.skillLevel, e.skillLevel),
       entryFee := if u.entryFee.Some? then u.entryFee.value else e.entryFee)
  }

  /** The push of `registerForEvent`. */
  function AddParticipant(e: Event, caller: UserId): Event
  {
    e.(registeredParticipants := e.registeredParticipants + [caller])
  }

  /** An update that supplies only a new title changes the title and nothing else. */
  lemma UpdateOnlyTitle(e: Event, title: string)
    requires title != ""
    ensures ApplyUpdate(e, UpdateFields(Some(title), None, None, None, None, None, None))
         == e.(title := title)
  {
  }

  /** An entry fee of 0 overwrites the stored fee, and nothing else changes. */
  lemma UpdateZeroFee(e: Event)
    ensures ApplyUpdate(e, UpdateFields(None, None, None, None, None, None, Some(0)))
         == e.(entryFee := 0)
  {
  }

  /** A body whose string fields are all falsy (absent or empty) and whose
      date, location and fee are absent leaves the document as it was. */
  lemma UpdateWithFalsyFieldsKeepsEvent(e: Event, u: UpdateFields)
    requires !Truthy(u.title) && !Truthy(u.description)
    requires !Truthy(u.category) && !Truthy(u.skillLevel)
    requires u.date.None? && u.location.None? && u.entryFee.None?
    ensures ApplyUpdate(e, u) == e
  {
  }

  /** Applying the same update twice is the same as applying it once. */
  lemma UpdateIdempotent(e: Event, u: UpdateFields)
    ensures ApplyUpdate(ApplyUpdate(e, u), u) == ApplyUpdate(e, u)
  {
  }

  /** The overwrite keeps the participant invariant. */
  lemma UpdateKeepsParticipantsValid(e: Event, u: UpdateFields)
    requires ParticipantsValid(e)
    ensures ParticipantsValid(ApplyUpdate(e, u))
  {
  }

  /** Appending a caller who is neither the host nor registered keeps the
      participant invariant, and the old participants keep their order. */
  lemma AddParticipantKeepsParticipantsValid(e: Event, caller: UserId)
    requires ParticipantsValid(e)
    requires caller != e.host && caller !in e.registeredParticipants
    ensures ParticipantsValid(AddParticipant(e, caller))
    ensures AddParticipant(e, caller).registeredParticipants[..|e.registeredParticipants|]
         == e.registeredParticipants
  {
    var s := e.registeredParticipants;
    var t := s + [caller];
    forall i, j | 0 <= i < j < |t| ensures t[i] != t[j] {
      if j == |s| {
        assert t[i] == s[i];
      }
    }
    assert t[..|s|] == s;
  }
}
