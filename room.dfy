/** `RoomService`: rooms belong to a floor, which is resolved through
    `FloorService.findOne` (and so through its building and site) before every
    operation. Creating or removing a room moves the floor's `roomCount`. */
module RoomService {
  import opened Wrappers
  import opened Records
  import opened Collection
  import opened Counting
  import opened Pagination
  import opened Store
  import opened Cascade
  import FloorService

  const NotFoundMessage := "Room not found"

  /** `CreateRoomDto`. */
  datatype CreateRoom = CreateRoom(name: string, description: Option<string>)

  /** The update DTO's fields or the `{diagram}` of the diagram upload route. */
  datatype RoomPatch = RoomPatch(name: Option<string>, description: Option<string>, diagram: Option<Url>)

  function NewRoom(id: Id, floor: Id, dto: CreateRoom): Room {
    Room(id, dto.name, dto.description, 0, None, floor)
  }

  /** An update never changes a room's key, floor or counter. */
  function Patched(x: Room, patch: RoomPatch): (r: Room)
    ensures r.id == x.id && r.floor == x.floor && r.deviceCount == x.deviceCount
    ensures patch == RoomPatch(None, None, None) ==> r == x
  {
    x.(name := if patch.name.Some? then patch.name.value else x.name,
       description := if patch.description.Some? then patch.description else x.description,
       diagram := if patch.diagram.Some? then patch.diagram else x.diagram)
  }

  // ---------------------------------------------------------------------------
  // Reads

  /** `findOne(siteId, buildingId, floorId, id)`: the floor must resolve and the room
      must belong to it. */
  function FindOne(t: Tables, siteId: Id, buildingId: Id, floorId: Id, id: Id): (r: Result<Room>)
    ensures r.Ok? ==> r.value in t.rooms && r.value.id == id && r.value.floor == floorId
    ensures r.Ok? ==> FindFirst(t.rooms, RoomScoped(id, floorId)) == Some(r.value)
    ensures r.Err? <==>
      FloorService.FindOne(t, siteId, buildingId, floorId).Err? || forall x :: x in t.rooms ==> !(x.id == id && x.floor == floorId)
    ensures r.Err? ==>
      r.error == if FloorService.FindOne(t, siteId, buildingId, floorId).Err?
                 then FloorService.FindOne(t, siteId, buildingId, floorId).error else NotFound(NotFoundMessage)
  {
    var floor :- FloorService.FindOne(t, siteId, buildingId, floorId);
    FindOr(t.rooms, RoomScoped(id, floor.id), NotFoundMessage)
  }

  /** `findAll(siteId, buildingId, floorId, search, pagination)`: the floor's rooms only. */
  function FindAll(t: Tables, siteId: Id, buildingId: Id, floorId: Id, search: Option<NameQuery>, options: Options)
    : (r: Result<Page<Room>>)
    ensures r.Err? <==> FloorService.FindOne(t, siteId, buildingId, floorId).Err?
    ensures r.Ok? ==> forall x :: x in r.value.results ==>
      x in t.rooms && x.floor == floorId && (search.None? || search.value(x.name))
    ensures r.Ok? ==> r.value.pagination.totalResults == Count(t.rooms, RoomNamed(search, floorId))
  {
    var floor :- FloorService.FindOne(t, siteId, buildingId, floorId);
    Ok(PaginatedAggregation(Where(t.rooms, RoomNamed(search, floor.id)), options))
  }

  // ---------------------------------------------------------------------------
  // What each change leaves behind

  /** The new room, linked to the resolved floor, whose `roomCount` is one up. */
  function Created(t: Tables, siteId: Id, buildingId: Id, floorId: Id, dto: CreateRoom): (r: (Tables, Result<Room>))
    ensures r.1.Err? <==> FloorService.FindOne(t, siteId, buildingId, floorId).Err?
    ensures r.1.Err? ==> r == (t, Err(FloorService.FindOne(t, siteId, buildingId, floorId).error))
    ensures r.1.Ok? ==> r.1.value == NewRoom(t.nextId, floorId, dto)
    ensures r.1.Ok? ==> r.0.rooms == t.rooms + [r.1.value] && r.0.nextId == t.nextId + 1
    ensures r.0 == t.(floors := r.0.floors, rooms := r.0.rooms, nextId := r.0.nextId)
  {
    match FloorService.FindOne(t, siteId, buildingId, floorId)
    case Err(e) => (t, Err(e))
    case Ok(floor) =>
      var x := NewRoom(t.nextId, floor.id, dto);
      var u := t.(rooms := t.rooms + [x], nextId := t.nextId + 1);
      (FloorService.Bumped(u, floor.id, RoomCount, 1), Ok(x))
  }

  function Updated(t: Tables, siteId: Id, buildingId: Id, floorId: Id, id: Id, patch: RoomPatch)
    : (r: (Tables, Result<Room>))
    ensures r.1.Err? <==> FindOne(t, siteId, buildingId, floorId, id).Err?
    ensures r.1.Err? ==> r == (t, FindOne(t, siteId, buildingId, floorId, id))
    ensures r.1.Ok? ==> r.1.value == Patched(FindOne(t, siteId, buildingId, floorId, id).value, patch)
    ensures r.0 == t.(rooms := r.0.rooms)
  {
    match FindOne(t, siteId, buildingId, floorId, id)
    case Err(e) => (t, Err(e))
    case Ok(x) =>
      var v := Patched(x, patch);
      (t.(rooms := ReplaceFirst(t.rooms, RoomScoped(id, floorId), v)), Ok(v))
  }

  /** The room is gone, its floor's `roomCount` is one down, and its devices are gone. */
  function Removed(t: Tables, siteId: Id, buildingId: Id, floorId: Id, id: Id): (r: (Tables, Result<Room>))
    ensures r.1 == FindOne(t, siteId, buildingId, floorId, id)
    ensures r.1.Err? ==> r.0 == t
    ensures r.0 == t.(floors := r.0.floors, rooms := r.0.rooms, devices := r.0.devices)
  {
    match FindOne(t, siteId, buildingId, floorId, id)
    case Err(e) => (t, Err(e))
    case Ok(x) =>
      var u := t.(rooms := DeleteFirst(t.rooms, RoomScoped(id, floorId)));
      var v := FloorService.Bumped(u, floorId, RoomCount, -1);
      (v.(devices := DeleteMany(v.devices, DeviceOf(id))), Ok(x))
  }

  /** `$inc: {[field]: delta}` on the room with that id, if any. */
  function Bumped(t: Tables, id: Id, field: CountField, delta: int): (r: Tables)
    ensures r == t.(rooms := r.rooms) && |r.rooms| == |t.rooms|
  {
    t.(rooms := UpdateFirst(t.rooms, RoomWithId(id), RoomInc(field, delta)))
  }

  // ---------------------------------------------------------------------------
  // The service

  /** `create(siteId, buildingId, floorId, dto)`. */
  method Create(db: Database, siteId: Id, buildingId: Id, floorId: Id, dto: CreateRoom) returns (r: Result<Room>)
    modifies db
    ensures (db.State(), r) == Created(old(db.State()), siteId, buildingId, floorId, dto)
    ensures db.deletedImages == old(db.deletedImages)
  {
    var found := FloorService.FindOne(db.State(), siteId, buildingId, floorId);
    if found.Err? {
      return Err(found.error);
    }
    var floor := found.value;
    var id := db.NewId();
    var x := NewRoom(id, floor.id, dto);
    db.rooms := db.rooms + [x];
    var _ := FloorService.IncreaseStats(db, floor.id, RoomCount);
    r := Ok(x);
  }

  /** `update(siteId, buildingId, floorId, id, update)` with `{new: true}`. */
  method Update(db: Database, siteId: Id, buildingId: Id, floorId: Id, id: Id, patch: RoomPatch)
    returns (r: Result<Room>)
    modifies db
    ensures (db.State(), r) == Updated(old(db.State()), siteId, buildingId, floorId, id, patch)
    ensures db.deletedImages == old(db.deletedImages)
  {
    var floor := FloorService.FindOne(db.State(), siteId, buildingId, floorId);
    if floor.Err? {
      return Err(floor.error);
    }
    var found := FindFirst(db.rooms, RoomScoped(id, floor.value.id));
    if found.None? {
      return Err(NotFound(NotFoundMessage));
    }
    var v := Patched(found.value, patch);
    db.rooms := ReplaceFirst(db.rooms, RoomScoped(id, floor.value.id), v);
    r := Ok(v);
  }

  /** `remove(siteId, buildingId, floorId, id)`: delete the room, lower the floor's
      `roomCount`, delete the diagram (set or not), then delete the room's devices. */
  method Remove(db: Database, siteId: Id, buildingId: Id, floorId: Id, id: Id) returns (r: Result<Room>)
    modifies db
    ensures (db.State(), r) == Removed(old(db.State()), siteId, buildingId, floorId, id)
    ensures r.Err? ==> db.deletedImages == old(db.deletedImages)
    ensures r.Ok? ==> db.deletedImages == old(db.deletedImages) + [r.value.diagram]
  {
    var floor := FloorService.FindOne(db.State(), siteId, buildingId, floorId);
    if floor.Err? {
      return Err(floor.error);
    }
    var found := FindFirst(db.rooms, RoomScoped(id, floor.value.id));
    if found.None? {
      return Err(NotFound(NotFoundMessage));
    }
    var room := found.value;
    db.rooms := DeleteFirst(db.rooms, RoomScoped(id, floor.value.id));
    var _ := FloorService.DecreaseStats(db, floor.value.id, RoomCount);
    db.DeleteImage(room.diagram);
    RemoveRoomDevices(db, room.id);
    r := Ok(room);
  }

  /** `increaseStats(id, field)`; the result is the room before the increment. */
  method IncreaseStats(db: Database, id: Id, field: CountField) returns (before: Option<Room>)
    modifies db
    ensures before == FindFirst(old(db.rooms), RoomWithId(id))
    ensures db.State() == Bumped(old(db.State()), id, field, 1)
    ensures db.deletedImages == old(db.deletedImages)
  {
    before := FindFirst(db.rooms, RoomWithId(id));
    db.rooms := UpdateFirst(db.rooms, RoomWithId(id), RoomInc(field, 1));
  }

  /** `decreaseStats(id, field)`. */
  method DecreaseStats(db: Database, id: Id, field: CountField) returns (before: Option<Room>)
    modifies db
    ensures before == FindFirst(old(db.rooms), RoomWithId(id))
    ensures db.State() == Bumped(old(db.State()), id, field, -1)
    ensures db.deletedImages == old(db.deletedImages)
  {
    before := FindFirst(db.rooms, RoomWithId(id));
    db.rooms := UpdateFirst(db.rooms, RoomWithId(id), RoomInc(field, -1));
  }

  // ---------------------------------------------------------------------------
  // Properties

  /** Creating a room keeps the store consistent and every counter exact: the one
      raised is the floor's, and the new room has no devices yet. */
  lemma CreatedKeeps(t: Tables, siteId: Id, buildingId: Id, floorId: Id, dto: CreateRoom)
    requires Consistent(t)
    ensures Consistent(Created(t, siteId, buildingId, floorId, dto).0)
    ensures CountersExact(t) ==> CountersExact(Created(t, siteId, buildingId, floorId, dto).0)
  {
    if FloorService.FindOne(t, siteId, buildingId, floorId).Ok? {
      var f := FloorService.Lookup(t, siteId, buildingId, floorId).value;
      AddedUnder(t, f, NewRoom(t.nextId, f.id, dto));
    }
  }

  /** Appending a fresh room `x` under the stored floor `f` and raising the floor's
      `roomCount` keeps both invariants. */
  lemma AddedUnder(t: Tables, f: Floor, x: Room)
    requires Consistent(t) && f in t.floors
    requires x.id == t.nextId && x.floor == f.id && x.deviceCount == 0
    ensures var r := FloorService.Bumped(t.(rooms := t.rooms + [x], nextId := t.nextId + 1), f.id, RoomCount, 1);
      Consistent(r) && (CountersExact(t) ==> CountersExact(r))
  {
    var q := FloorWithId(f.id);
    FindByKey(t.floors, FloorKey, q, f);
    KeyedAppend(t.rooms, RoomKey, t.nextId, x);
    KeyedUpdate(t.floors, FloorKey, t.nextId + 1, q, FloorInc(RoomCount, 1));
    RefsUpdate(t.floors, FloorBuilding, t.nextId + 1, q, FloorInc(RoomCount, 1));
    if CountersExact(t) {
      AddedUnderExact(t, f, x);
    }
  }

  lemma AddedUnderExact(t: Tables, f: Floor, x: Room)
    requires Consistent(t) && f in t.floors
    requires x.id == t.nextId && x.floor == f.id && x.deviceCount == 0 && CountersExact(t)
    ensures var r := FloorService.Bumped(t.(rooms := t.rooms + [x], nextId := t.nextId + 1), f.id, RoomCount, 1);
      CountersExact(r)
  {
    var q := FloorWithId(f.id);
    FindByKey(t.floors, FloorKey, q, f);
    KeyedAppend(t.rooms, RoomKey, t.nextId, x);
    KeyedUpdate(t.floors, FloorKey, t.nextId + 1, q, FloorInc(RoomCount, 1));
    RefsUpdate(t.floors, FloorBuilding, t.nextId + 1, q, FloorInc(RoomCount, 1));
    var bumped := FloorBump(f, RoomCount, 1);
    ExactAfterChildReplaced(t.buildings, BuildingKey, BuildingFloorCount, t.floors, FloorBuilding, q, bumped);
    ExactAfterChildAdded(t.floors, FloorKey, FloorRoomCount, t.rooms, RoomFloor, x, q, bumped);
    ExactAfterParentAdded(t.rooms, RoomKey, RoomDeviceCount, t.devices, DeviceRoom, x);
  }

  /** After a create the room is found under its floor, and the floor's `roomCount` is
      exactly one higher, its other fields unchanged. */
  lemma CreatedIsFound(t: Tables, siteId: Id, buildingId: Id, floorId: Id, dto: CreateRoom)
    requires Consistent(t) && FloorService.FindOne(t, siteId, buildingId, floorId).Ok?
    ensures var r := Created(t, siteId, buildingId, floorId, dto);
      var f := FloorService.Lookup(t, siteId, buildingId, floorId).value;
      && FindOne(r.0, siteId, buildingId, floorId, t.nextId) == r.1
      && FindFirst(r.0.floors, FloorWithId(floorId)) == Some(f.(roomCount := f.roomCount + 1))
  {
    var f := FloorService.Lookup(t, siteId, buildingId, floorId).value;
    var x := NewRoom(t.nextId, f.id, dto);
    var u := t.(rooms := t.rooms + [x], nextId := t.nextId + 1);
    var q := FloorWithId(f.id);
    FindByKey(t.floors, FloorKey, q, f);
    FloorService.BumpedOneField(u, floorId, RoomCount, 1, floorId);
    var r := FloorService.Bumped(u, f.id, RoomCount, 1);
    var bumped := FloorBump(f, RoomCount, 1);
    UniqueReplaceFirst(t.floors, FloorKey, q, bumped);
    InReplaceFirst(t.floors, q, bumped, bumped);
    FindByKey(r.floors, FloorKey, FloorScoped(floorId, buildingId), bumped);
    FindAppended(t.rooms, x, RoomScoped(t.nextId, floorId));
  }

  lemma UpdatedKeeps(t: Tables, siteId: Id, buildingId: Id, floorId: Id, id: Id, patch: RoomPatch)
    requires Consistent(t)
    ensures Consistent(Updated(t, siteId, buildingId, floorId, id, patch).0)
    ensures CountersExact(t) ==> CountersExact(Updated(t, siteId, buildingId, floorId, id, patch).0)
  {
    if FindOne(t, siteId, buildingId, floorId, id).Ok? {
      var v := Patched(FindOne(t, siteId, buildingId, floorId, id).value, patch);
      var q := RoomScoped(id, floorId);
      KeyedUpdate(t.rooms, RoomKey, t.nextId, q, (x: Room) => v);
      RefsUpdate(t.rooms, RoomFloor, t.nextId, q, (x: Room) => v);
      if CountersExact(t) {
        ExactAfterChildReplaced(t.floors, FloorKey, FloorRoomCount, t.rooms, RoomFloor, q, v);
        ExactAfterParentReplaced(t.rooms, RoomKey, RoomDeviceCount, t.devices, DeviceRoom, q, v);
      }
    }
  }

  /** After an update the room is found as the update returned it; other rooms are
      unaffected. */
  lemma UpdatedIsFound(t: Tables, siteId: Id, buildingId: Id, floorId: Id, id: Id, patch: RoomPatch, id': Id)
    ensures var r := Updated(t, siteId, buildingId, floorId, id, patch);
      r.1.Ok? ==> FindOne(r.0, siteId, buildingId, floorId, id) == r.1
    ensures id' != id ==>
      FindOne(Updated(t, siteId, buildingId, floorId, id, patch).0, siteId, buildingId, floorId, id')
        == FindOne(t, siteId, buildingId, floorId, id')
  {
    if FindOne(t, siteId, buildingId, floorId, id).Ok? {
      var v := Patched(FindOne(t, siteId, buildingId, floorId, id).value, patch);
      FindReplaced(t.rooms, RoomScoped(id, floorId), v);
      if id' != id {
        FindAfterReplace(t.rooms, RoomScoped(id, floorId), v, RoomScoped(id', floorId));
      }
    }
  }

  lemma RemovedKeeps(t: Tables, siteId: Id, buildingId: Id, floorId: Id, id: Id)
    requires Consistent(t)
    ensures Consistent(Removed(t, siteId, buildingId, floorId, id).0)
    ensures CountersExact(t) ==> CountersExact(Removed(t, siteId, buildingId, floorId, id).0)
  {
    if FindOne(t, siteId, buildingId, floorId, id).Ok? {
      var f := FloorService.Lookup(t, siteId, buildingId, floorId).value;
      var qr := RoomScoped(id, floorId);
      var qf := FloorWithId(floorId);
      FindByKey(t.floors, FloorKey, qf, f);
      KeyedDeleteFirst(t.rooms, RoomKey, t.nextId, qr);
      RefsDeleteFirst(t.rooms, RoomFloor, t.nextId, qr);
      KeyedUpdate(t.floors, FloorKey, t.nextId, qf, FloorInc(RoomCount, -1));
      RefsUpdate(t.floors, FloorBuilding, t.nextId, qf, FloorInc(RoomCount, -1));
      KeyedDeleteMany(t.devices, DeviceKey, t.nextId, DeviceOf(id));
      if CountersExact(t) {
        DroppedUnder(t, f, qr);
      }
    }
  }

  /** Deleting the first room matching `qr`, lowering its floor `f`'s `roomCount` and
      deleting the room's devices keeps every counter exact. */
  lemma DroppedUnder(t: Tables, f: Floor, qr: Room -> bool)
    requires Consistent(t) && CountersExact(t) && f in t.floors
    requires FindFirst(t.rooms, qr).Some? && FindFirst(t.rooms, qr).value.floor == f.id
    ensures var id := FindFirst(t.rooms, qr).value.id;
      var u := t.(rooms := DeleteFirst(t.rooms, qr));
      var v := FloorService.Bumped(u, f.id, RoomCount, -1);
      CountersExact(v.(devices := DeleteMany(v.devices, DeviceOf(id))))
  {
    var id := FindFirst(t.rooms, qr).value.id;
    var qf := FloorWithId(f.id);
    var u := t.(rooms := DeleteFirst(t.rooms, qr));
    FindByKey(t.floors, FloorKey, qf, f);
    var bumped := FloorBump(f, RoomCount, -1);
    ExactAfterChildReplaced(t.buildings, BuildingKey, BuildingFloorCount, t.floors, FloorBuilding, qf, bumped);
    ExactAfterChildRemoved(t.floors, FloorKey, FloorRoomCount, t.rooms, RoomFloor, qr, qf, bumped);
    forall x | x in u.rooms ensures x in t.rooms {
      InDeleteFirst(t.rooms, qr, x);
    }
    ExactOnFewerParents(t.rooms, u.rooms, RoomKey, RoomDeviceCount, t.devices, DeviceRoom);
    UniqueDeleteFirstGone(t.rooms, RoomKey, qr);
    ExactAfterOrphansDeleted(u.rooms, RoomKey, RoomDeviceCount, t.devices, DeviceRoom, DeviceOf(id));
  }

  /** A removal lowers the floor's `roomCount` by one and changes none of its other
      fields, so the floor's, building's and site's `deviceCount` keep counting the
      devices deleted with the room. The room is not found afterwards, and exactly its
      own devices are gone. */
  lemma RemovedExactly(t: Tables, siteId: Id, buildingId: Id, floorId: Id, id: Id, other: Id)
    requires Consistent(t) && FindOne(t, siteId, buildingId, floorId, id).Ok?
    ensures var r := Removed(t, siteId, buildingId, floorId, id).0;
      var f := FloorService.Lookup(t, siteId, buildingId, floorId).value;
      && r.sites == t.sites && r.buildings == t.buildings
      && r.users == t.users && r.organizations == t.organizations && r.events == t.events
      && FindFirst(r.floors, FloorWithId(floorId)) == Some(f.(roomCount := f.roomCount - 1))
      && (other != floorId ==> FindFirst(r.floors, FloorWithId(other)) == FindFirst(t.floors, FloorWithId(other)))
      && (forall x :: x in r.rooms <==> x in t.rooms && x.id != id)
      && (forall d :: d in r.devices <==> d in t.devices && d.room != id)
  {
    var f := FloorService.Lookup(t, siteId, buildingId, floorId).value;
    var qr := RoomScoped(id, floorId);
    var u := t.(rooms := DeleteFirst(t.rooms, qr));
    FindByKey(t.floors, FloorKey, FloorWithId(floorId), f);
    FloorService.BumpedOneField(u, floorId, RoomCount, -1, other);
    InDeleteFirstIff(t.rooms, RoomKey, qr);
  }

  lemma BumpedKeeps(t: Tables, id: Id, field: CountField, delta: int)
    requires Consistent(t)
    ensures Consistent(Bumped(t, id, field, delta))
    ensures CountersExact(t) && field != DeviceCount ==> CountersExact(Bumped(t, id, field, delta))
  {
    var q := RoomWithId(id);
    KeyedUpdate(t.rooms, RoomKey, t.nextId, q, RoomInc(field, delta));
    RefsUpdate(t.rooms, RoomFloor, t.nextId, q, RoomInc(field, delta));
    if FindFirst(t.rooms, q).Some? && CountersExact(t) && field != DeviceCount {
      var x := FindFirst(t.rooms, q).value;
      ExactAfterChildReplaced(t.floors, FloorKey, FloorRoomCount, t.rooms, RoomFloor, q, RoomBump(x, field, delta));
      ExactAfterParentReplaced(t.rooms, RoomKey, RoomDeviceCount, t.devices, DeviceRoom, q, RoomBump(x, field, delta));
    }
  }

  /** `$inc` changes the named counter of the named room by `delta`; other rooms are
      unaffected. */
  lemma BumpedOneField(t: Tables, id: Id, field: CountField, delta: int, id': Id)
    ensures FindFirst(Bumped(t, id, field, delta).rooms, RoomWithId(id)) ==
      match FindFirst(t.rooms, RoomWithId(id))
      case Some(x) => Some(RoomBump(x, field, delta))
      case None => None
    ensures id' != id ==>
      FindFirst(Bumped(t, id, field, delta).rooms, RoomWithId(id')) == FindFirst(t.rooms, RoomWithId(id'))
  {
    var q := RoomWithId(id);
    if FindFirst(t.rooms, q).Some? {
      var x := FindFirst(t.rooms, q).value;
      FindReplaced(t.rooms, q, RoomBump(x, field, delta));
      if id' != id {
        FindAfterReplace(t.rooms, q, RoomBump(x, field, delta), RoomWithId(id'));
      }
    }
  }

  /** `decreaseStats` undoes `increaseStats`. */
  lemma BumpedRoundTrip(t: Tables, id: Id, field: CountField)
    ensures Bumped(Bumped(t, id, field, 1), id, field, -1) == t
  {
    var q := RoomWithId(id);
    if FindFirst(t.rooms, q).Some? {
      var x := FindFirst(t.rooms, q).value;
      assert RoomBump(RoomBump(x, field, 1), field, -1) == x;
    }
    UpdateFirstUndone(t.rooms, q, RoomInc(field, 1), RoomInc(field, -1));
  }
}
