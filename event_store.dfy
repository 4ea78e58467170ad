/** The event collection and the handlers that change it: `createEvent`,
    `updateEvent` and `registerForEvent`. Each request is one atomic step. */
module EventController {
  import opened Results
  import opened EventModel
  import EventQueries

  /** The response message of a successful registration. */
  const RegisteredMessage := "Registered for event successfully"

  class EventStore {
    /** The stored event documents, in insertion order. */
    var events: seq<Event>
    /** The id the next created event receives. */
    var nextId: EventId

    /** Ids are unique and below `nextId`; every event keeps its participant invariant. */
    ghost predicate Valid()
      reads this
    {
      && IdsUnique(events)
      && (forall i :: 0 <= i < |events| ==> events[i].id < nextId)
      && (forall i :: 0 <= i < |events| ==> ParticipantsValid(events[i]))
    }

    constructor ()
      ensures Valid() && events == []
    {
      events := [];
      nextId := 0;
    }

    /** `createEvent`: only a host may create; the new event is owned by the
        caller, carries the supplied fields and has no participants. */
    method CreateEvent(caller: User, fields: EventFields) returns (r: Result<Event, Error>)
      requires Valid()
      modifies this
      ensures Valid()
      ensures !CanCreateEvent(caller) ==> r == Err(NotAHost) && events == old(events)
      ensures r.Err? ==> r.error.Status() == 403
      ensures CanCreateEvent(caller) ==>
                && r.Ok?
                && events == old(events) + [r.value]
                && FindIndex(old(events), r.value.id).None?
                && r.value.host == caller.id
                && r.value.registeredParticipants == []
                && r.value.title == fields.title
                && r.value.description == fields.description
                && r.value.date == fields.date
                && r.value.location == fields.location
                && r.value.category == fields.category
                && r.value.skillLevel == fields.skillLevel
                && r.value.entryFee == fields.entryFee
    {
      if !CanCreateEvent(caller) {
        return Err(NotAHost);
      }
      var event := NewEvent(nextId, fields, caller.id);
      events := events + [event];
      nextId := nextId + 1;
      r := Ok(event);
    }

    /** `updateEvent`: NotFound for an unknown id, then Forbidden for anyone but
        the host, and otherwise the partial overwrite `ApplyUpdate` in place. */
    method UpdateEvent(id: EventId, caller: UserId, u: UpdateFields) returns (r: Result<Event, Error>)
      requires Valid()
      modifies this
      ensures Valid() && nextId == old(nextId)
      ensures r.Err? ==> r.error.Status() == if FindIndex(old(events), id).None? then 404 else 403
      ensures FindIndex(old(events), id).None? ==> r == Err(EventNotFound) && events == old(events)
      ensures FindIndex(old(events), id).Some? ==>
                var i := FindIndex(old(events), id).value;
                if !IsOwner(old(events)[i], caller) then
                  r == Err(NotAuthorizedToUpdate) && events == old(events)
                else
                  r == Ok(ApplyUpdate(old(events)[i], u)) && events == old(events)[i := r.value]
    {
      var found := FindIndex(events, id);
      if found.None? {
        return Err(EventNotFound);
      }
      var i := found.value;
      var event := events[i];
      if event.host != caller {
        return Err(NotAuthorizedToUpdate);
      }
      event := event.(title := OrElse(u.title, event.title));
      event := event.(description := OrElse(u.description, event.description));
      if u.date.Some? {
        event := event.(date := u.date.value);
      }
      if u.location.Some? {
        event := event.(location := u.location.value);
      }
      event := event.(category := OrElse(u.category, event.category));
      event := event.(skillLevel := OrElse(u.skillLevel, event.skillLevel));
      if u.entryFee.Some? {
        event := event.(entryFee := u.entryFee.value);
      }
      UpdateKeepsParticipantsValid(events[i], u);
      events := events[i := event];
      r := Ok(event);
    }

    /** `registerForEvent`: NotFound for an unknown id; a 400 error for the host
        (checked first) and for a caller already registered; otherwise the
        caller is appended to the end of the participant list. */
    method RegisterForEvent(id: EventId, caller: UserId) returns (r: Result<string, Error>)
      requires Valid()
      modifies this
      ensures Valid() && nextId == old(nextId)
      ensures r.Err? ==> r.error.Status() == if FindIndex(old(events), id).None? then 404 else 400
      ensures FindIndex(old(events), id).None? ==> r == Err(EventNotFound) && events == old(events)
      ensures FindIndex(old(events), id).Some? ==>
                var i := FindIndex(old(events), id).value;
                if IsOwner(old(events)[i], caller) then
                  r == Err(HostCannotRegister) && events == old(events)
                else if caller in old(events)[i].registeredParticipants then
                  r == Err(AlreadyRegistered) && events == old(events)
                else
                  r == Ok(RegisteredMessage)
                  && events == old(events)[i := AddParticipant(old(events)[i], caller)]
    {
      var found := FindIndex(events, id);
      if found.None? {
        return Err(EventNotFound);
      }
      var i := found.value;
      var event := events[i];
      if event.host == caller {
        return Err(HostCannotRegister);
      }
      if caller in event.registeredParticipants {
        return Err(AlreadyRegistered);
      }
      AddParticipantKeepsParticipantsValid(event, caller);
      event := event.(registeredParticipants := event.registeredParticipants + [caller]);
      events := events[i := event];
      r := Ok(RegisteredMessage);
    }
  }

  /** A host creates an event, two users register, a repeated registration
      and the host's own registration are refused, and the host lists the
      participants in registration order. */
  method RegistrationScenario(fields: EventFields)
  {
    var store := new EventStore();
    var host := User(1, "host");
    var created := store.CreateEvent(host, fields);
    assert created.Ok?;
    var id := created.value.id;
    assert store.events == [created.value];

    var refused := store.CreateEvent(User(2, "participant"), fields);
    assert refused == Err(NotAHost);

    var first := store.RegisterForEvent(id, 2);
    assert first == Ok(RegisteredMessage);
    assert |store.events| == 1 && store.events[0].registeredParticipants == [2];
    var second := store.RegisterForEvent(id, 3);
    assert second == Ok(RegisteredMessage);
    assert store.events[0].registeredParticipants == [2, 3];
    var again := store.RegisterForEvent(id, 2);
    assert again == Err(AlreadyRegistered);
    var own := store.RegisterForEvent(id, 1);
    assert own == Err(HostCannotRegister);

    var listed := EventQueries.GetEventParticipants(store.events, id, 1);
    assert listed == Ok([2, 3]);
    var hidden := EventQueries.GetEventParticipants(store.events, id, 2);
    assert hidden == Err(NotAuthorizedToViewParticipants);
  }
}
