/** `EventService`: readings reported for a device, stored as they arrive and read
    back a page at a time. */
module EventService {
  import opened Wrappers
  import opened Records
  import opened Collection
  import opened Pagination
  import opened Store

  /** `CreateEventDto`, after the schema has cast `value` to a number. */
  datatype CreateEvent = CreateEvent(value: real, device: Id)

  function NewEvent(id: Id, dto: CreateEvent): Event {
    Event(id, dto.value, dto.device)
  }

  /** `eventModel.create(dto)`: the event at the end, under a fresh id. No check that
      the device exists. */
  function Created(t: Tables, dto: CreateEvent): (r: Tables)
    ensures r == t.(events := r.events, nextId := t.nextId + 1)
    ensures |r.events| == |t.events| + 1 && r.events[..|t.events|] == t.events
    ensures r.events[|t.events|] == Event(t.nextId, dto.value, dto.device)
  {
    t.(events := t.events + [NewEvent(t.nextId, dto)], nextId := t.nextId + 1)
  }

  /** `getEvents(device, {page, limit})`: `paginate` on `{device}` with the default
      sort, so the newest event comes first. */
  function GetEvents(t: Tables, device: Id, page: Option<int>, limit: Option<int>): (r: Page<Event>)
    ensures forall e :: e in r.results ==> e in t.events && e.device == device
    ensures r.pagination.totalResults == Count(t.events, EventOf(device))
    ensures r.results ==
      Window(Reverse(Where(t.events, EventOf(device))), Skip(PageOf(page), LimitOf(limit)), LimitOf(limit))
  {
    Paginate(Where(t.events, EventOf(device)), Options(page, limit, None))
  }

  /** `create(createEventDto)`. */
  method Create(db: Database, dto: CreateEvent) returns (e: Event)
    modifies db
    ensures e == NewEvent(old(db.nextId), dto)
    ensures db.State() == Created(old(db.State()), dto)
    ensures db.deletedImages == old(db.deletedImages)
  {
    var id := db.NewId();
    e := NewEvent(id, dto);
    db.events := db.events + [e];
  }

  /** Recording an event keeps the store consistent; no counter counts events. */
  lemma CreatedKeeps(t: Tables, dto: CreateEvent)
    requires Consistent(t)
    ensures Consistent(Created(t, dto))
    ensures CountersExact(t) ==> CountersExact(Created(t, dto))
  {
    KeyedAppend(t.events, EventKey, t.nextId, NewEvent(t.nextId, dto));
  }

  /** A new event is counted for its device and heads the device's first page. */
  lemma CreatedIsListed(t: Tables, dto: CreateEvent, limit: Option<int>)
    ensures var r := GetEvents(Created(t, dto), dto.device, None, limit);
      && r.pagination.totalResults == Count(t.events, EventOf(dto.device)) + 1
      && r.results[0] == NewEvent(t.nextId, dto)
  {
    var e := NewEvent(t.nextId, dto);
    var w := Where(Created(t, dto).events, EventOf(dto.device));
    CountAppend(t.events, e, EventOf(dto.device));
    WhereAppend(t.events, e, EventOf(dto.device));
    assert w == Where(t.events, EventOf(dto.device)) + [e];
    var r := GetEvents(Created(t, dto), dto.device, None, limit);
    assert r.results == Window(Reverse(w), 0, LimitOf(limit));
    assert Reverse(w)[0] == e;
  }

  /** Every other device's events read back exactly as before. */
  lemma CreatedLeavesOthers(t: Tables, dto: CreateEvent, device: Id, page: Option<int>, limit: Option<int>)
    requires device != dto.device
    ensures GetEvents(Created(t, dto), device, page, limit) == GetEvents(t, device, page, limit)
  {
    WhereAppend(t.events, NewEvent(t.nextId, dto), EventOf(device));
    assert Where(Created(t, dto).events, EventOf(device)) == Where(t.events, EventOf(device));
  }
}
