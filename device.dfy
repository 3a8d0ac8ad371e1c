/** `DeviceService`: a device lives in a room and stores its whole ancestor chain.
    Every operation first resolves the room through `RoomService.findOne`; creating
    or removing a device moves the `deviceCount` of its organization, site,
    building, floor and room together. */
module DeviceService {
  import opened Wrappers
  import opened Records
  import opened Collection
  import opened Counting
  import opened Pagination
  import opened Store
  import OrganizationService
  import SiteService
  import BuildingService
  import FloorService
  import RoomService

  const NotFoundMessage := "Device not found"

  /** `CreateDeviceDto` (`type` is a keyword here, hence `kind`). */
  datatype CreateDevice = CreateDevice(name: string, uuid: string, kind: string)

  /** The device fields an update may set. */
  datatype DevicePatch = DevicePatch(name: Option<string>, uuid: Option<string>, kind: Option<string>, value: Option<real>)

  /** The device `create` stores: the DTO, the ancestor ids as the caller gave them
      except the room, which is the resolved room's id, and the schema's zero `value`. */
  function NewDevice(id: Id, dto: CreateDevice, site: Id, building: Id, floor: Id, room: Id): Device {
    Device(id, dto.name, dto.uuid, dto.kind, 0.0, site, building, floor, room)
  }

  /** An update never changes a device's key or ancestors. */
  function Patched(d: Device, patch: DevicePatch): (r: Device)
    ensures r.id == d.id && r.site == d.site && r.building == d.building && r.floor == d.floor && r.room == d.room
    ensures patch == DevicePatch(None, None, None, None) ==> r == d
  {
    d.(name := if patch.name.Some? then patch.name.value else d.name,
       uuid := if patch.uuid.Some? then patch.uuid.value else d.uuid,
       kind := if patch.kind.Some? then patch.kind.value else d.kind,
       value := if patch.value.Some? then patch.value.value else d.value)
  }

  // ---------------------------------------------------------------------------
  // Reads

  /** `findRoom(...)`. */
  function FindRoom(t: Tables, siteId: Id, buildingId: Id, floorId: Id, roomId: Id): (r: Result<Room>)
    ensures r == RoomService.FindOne(t, siteId, buildingId, floorId, roomId)
    ensures r.Ok? ==> r.value in t.rooms && r.value.id == roomId && r.value.floor == floorId
  {
    RoomService.FindOne(t, siteId, buildingId, floorId, roomId)
  }

  /** `findOne(..., roomId, id)`: the room must resolve and the device must be in it. */
  function FindOne(t: Tables, siteId: Id, buildingId: Id, floorId: Id, roomId: Id, id: Id): (r: Result<Device>)
    ensures r.Ok? ==> r.value in t.devices && r.value.id == id && r.value.room == roomId
    ensures r.Ok? ==> FindFirst(t.devices, DeviceScoped(id, roomId)) == Some(r.value)
    ensures r.Err? <==>
      FindRoom(t, siteId, buildingId, floorId, roomId).Err? || forall d :: d in t.devices ==> !(d.id == id && d.room == roomId)
    ensures r.Err? ==>
      r.error == if FindRoom(t, siteId, buildingId, floorId, roomId).Err?
                 then FindRoom(t, siteId, buildingId, floorId, roomId).error else NotFound(NotFoundMessage)
  {
    var room :- FindRoom(t, siteId, buildingId, floorId, roomId);
    FindOr(t.devices, DeviceScoped(id, room.id), NotFoundMessage)
  }

  /** `findAll(..., roomId, search, pagination)`: `paginate` over the room's devices,
      narrowed by the case-insensitive name match when a search string is given. */
  function FindAll(t: Tables, siteId: Id, buildingId: Id, floorId: Id, roomId: Id, search: Option<NameQuery>, options: Options)
    : (r: Result<Page<Device>>)
    ensures r.Err? <==> FindRoom(t, siteId, buildingId, floorId, roomId).Err?
    ensures r.Ok? ==> forall d :: d in r.value.results ==>
      d in t.devices && d.room == roomId && (search.None? || search.value(d.name))
    ensures r.Ok? ==> r.value.pagination.totalResults == Count(t.devices, DeviceNamedInRoom(search, roomId))
  {
    var room :- FindRoom(t, siteId, buildingId, floorId, roomId);
    Ok(Paginate(Where(t.devices, DeviceNamedInRoom(search, room.id)), options))
  }

  /** `getSiteDevices(siteId, search, {page, limit})`: every device of the site, newest
      first, since only `page` and `limit` are passed on. */
  function GetSiteDevices(t: Tables, siteId: Id, search: Option<NameQuery>, page: Option<int>, limit: Option<int>)
    : (r: Result<Page<Device>>)
    ensures r.Err? <==> SiteService.FindOne(t, siteId).Err?
    ensures r.Ok? ==> forall d :: d in r.value.results ==>
      d in t.devices && d.site == siteId && (search.None? || search.value(d.name))
    ensures r.Ok? ==> r.value.pagination.totalResults == Count(t.devices, DeviceNamedAtSite(search, siteId))
    ensures r.Ok? ==>
      r.value.results ==
      Window(Reverse(Where(t.devices, DeviceNamedAtSite(search, siteId))), Skip(PageOf(page), LimitOf(limit)), LimitOf(limit))
  {
    var site :- SiteService.FindOne(t, siteId);
    Ok(Paginate(Where(t.devices, DeviceNamedAtSite(search, site.id)), Options(page, limit, None)))
  }

  /** `getBuildingDevices(siteId, buildingId, search, {page, limit})`. */
  function GetBuildingDevices(t: Tables, siteId: Id, buildingId: Id, search: Option<NameQuery>, page: Option<int>, limit: Option<int>)
    : (r: Result<Page<Device>>)
    ensures r.Err? <==> BuildingService.FindOne(t, siteId, buildingId).Err?
    ensures r.Ok? ==> forall d :: d in r.value.results ==>
      d in t.devices && d.building == buildingId && (search.None? || search.value(d.name))
    ensures r.Ok? ==> r.value.pagination.totalResults == Count(t.devices, DeviceNamedAtBuilding(search, buildingId))
    ensures r.Ok? ==>
      r.value.results ==
      Window(Reverse(Where(t.devices, DeviceNamedAtBuilding(search, buildingId))), Skip(PageOf(page), LimitOf(limit)), LimitOf(limit))
  {
    var building :- BuildingService.FindOne(t, siteId, buildingId);
    Ok(Paginate(Where(t.devices, DeviceNamedAtBuilding(search, building.id)), Options(page, limit, None)))
  }

  // ---------------------------------------------------------------------------
  // What each change leaves behind

  /** The `deviceCount` bumps above the room: organization, site, building, floor. */
  function Outer(t: Tables, org: Id, siteId: Id, buildingId: Id, floorId: Id, delta: int): (r: Tables)
    ensures r == t.(organizations := r.organizations, sites := r.sites, buildings := r.buildings, floors := r.floors)
  {
    var a := OrganizationService.Bumped(t, org, DeviceCount, delta);
    var b := SiteService.Bumped(a, siteId, DeviceCount, delta);
    var c := BuildingService.Bumped(b, buildingId, DeviceCount, delta);
    FloorService.Bumped(c, floorId, DeviceCount, delta)
  }

  /** The five `$inc: {deviceCount: delta}` of `create` and `remove`, in source order:
      organization, site, building, floor, room. */
  function Tallied(t: Tables, org: Id, siteId: Id, buildingId: Id, floorId: Id, roomId: Id, delta: int): (r: Tables)
    ensures r == t.(organizations := r.organizations, sites := r.sites, buildings := r.buildings,
                    floors := r.floors, rooms := r.rooms)
  {
    RoomService.Bumped(Outer(t, org, siteId, buildingId, floorId, delta), roomId, DeviceCount, delta)
  }

  /** `deviceModel.create(...)`: the new document at the end, under a fresh id. */
  function Appended(t: Tables, d: Device): (r: Tables)
    ensures r.devices == t.devices + [d] && r.nextId == t.nextId + 1
    ensures r == t.(devices := r.devices, nextId := r.nextId)
  {
    t.(devices := t.devices + [d], nextId := t.nextId + 1)
  }

  function Created(t: Tables, org: Id, siteId: Id, buildingId: Id, floorId: Id, roomId: Id, dto: CreateDevice)
    : (r: (Tables, Result<Device>))
    ensures r.1.Err? <==> FindRoom(t, siteId, buildingId, floorId, roomId).Err?
    ensures r.1.Err? ==> r == (t, Err(FindRoom(t, siteId, buildingId, floorId, roomId).error))
    ensures r.1.Ok? ==> r.1.value == NewDevice(t.nextId, dto, siteId, buildingId, floorId, roomId)
    ensures r.1.Ok? ==> r.0.devices == t.devices + [r.1.value] && r.0.nextId == t.nextId + 1
    ensures r.0.users == t.users && r.0.events == t.events
  {
    match FindRoom(t, siteId, buildingId, floorId, roomId)
    case Err(e) => (t, Err(e))
    case Ok(room) =>
      var d := NewDevice(t.nextId, dto, siteId, buildingId, floorId, room.id);
      (Tallied(Appended(t, d), org, siteId, buildingId, floorId, room.id, 1), Ok(d))
  }

  function Updated(t: Tables, siteId: Id, buildingId: Id, floorId: Id, roomId: Id, id: Id, patch: DevicePatch)
    : (r: (Tables, Result<Device>))
    ensures r.1.Err? <==> FindOne(t, siteId, buildingId, floorId, roomId, id).Err?
    ensures r.1.Err? ==> r == (t, FindOne(t, siteId, buildingId, floorId, roomId, id))
    ensures r.1.Ok? ==> r.1.value == Patched(FindOne(t, siteId, buildingId, floorId, roomId, id).value, patch)
    ensures r.0 == t.(devices := r.0.devices)
  {
    match FindOne(t, siteId, buildingId, floorId, roomId, id)
    case Err(e) => (t, Err(e))
    case Ok(d) =>
      var v := Patched(d, patch);
      (t.(devices := ReplaceFirst(t.devices, DeviceScoped(id, roomId), v)), Ok(v))
  }

  function Removed(t: Tables, org: Id, siteId: Id, buildingId: Id, floorId: Id, roomId: Id, id: Id)
    : (r: (Tables, Result<Device>))
    ensures r.1 == FindOne(t, siteId, buildingId, floorId, roomId, id)
    ensures r.1.Err? ==> r.0 == t
    ensures r.1.Ok? ==> |r.0.devices| == |t.devices| - 1
    ensures r.0.users == t.users && r.0.events == t.events && r.0.nextId == t.nextId
  {
    match FindOne(t, siteId, buildingId, floorId, roomId, id)
    case Err(e) => (t, Err(e))
    case Ok(d) =>
      var u := t.(devices := DeleteFirst(t.devices, DeviceScoped(id, roomId)));
      (Tallied(u, org, siteId, buildingId, floorId, roomId, -1), Ok(d))
  }

  // ---------------------------------------------------------------------------
  // The service

  /** The five `increaseStats`/`decreaseStats` calls. */
  method Tally(db: Database, org: Id, siteId: Id, buildingId: Id, floorId: Id, roomId: Id, delta: int)
    requires delta == 1 || delta == -1
    modifies db
    ensures db.State() == Tallied(old(db.State()), org, siteId, buildingId, floorId, roomId, delta)
    ensures db.deletedImages == old(db.deletedImages)
  {
    if delta == 1 {
      var _ := OrganizationService.IncreaseStats(db, org, DeviceCount);
      var _ := SiteService.IncreaseStats(db, siteId, DeviceCount);
      var _ := BuildingService.IncreaseStats(db, buildingId, DeviceCount);
      var _ := FloorService.IncreaseStats(db, floorId, DeviceCount);
      var _ := RoomService.IncreaseStats(db, roomId, DeviceCount);
    } else {
      var _ := OrganizationService.DecreaseStats(db, org, DeviceCount);
      var _ := SiteService.DecreaseStats(db, siteId, DeviceCount);
      var _ := BuildingService.DecreaseStats(db, buildingId, DeviceCount);
      var _ := FloorService.DecreaseStats(db, floorId, DeviceCount);
      var _ := RoomService.DecreaseStats(db, roomId, DeviceCount);
    }
  }

  /** `deviceModel.create(...)` under a fresh id, and the five `increaseStats` calls
      that follow it. */
  method Insert(db: Database, dto: CreateDevice, org: Id, siteId: Id, buildingId: Id, floorId: Id, roomId: Id)
    returns (d: Device)
    modifies db
    ensures d == NewDevice(old(db.nextId), dto, siteId, buildingId, floorId, roomId)
    ensures db.State() == Tallied(Appended(old(db.State()), d), org, siteId, buildingId, floorId, roomId, 1)
    ensures db.deletedImages == old(db.deletedImages)
  {
    var id := db.NewId();
    d := NewDevice(id, dto, siteId, buildingId, floorId, roomId);
    db.devices := db.devices + [d];
    Tally(db, org, siteId, buildingId, floorId, roomId, 1);
  }

  /** `create(user, organizationId, siteId, buildingId, floorId, roomId, dto)`. */
  method Create(db: Database, org: Id, siteId: Id, buildingId: Id, floorId: Id, roomId: Id, dto: CreateDevice)
    returns (r: Result<Device>)
    modifies db
    ensures (db.State(), r) == Created(old(db.State()), org, siteId, buildingId, floorId, roomId, dto)
    ensures db.deletedImages == old(db.deletedImages)
  {
    var found := FindRoom(db.State(), siteId, buildingId, floorId, roomId);
    if found.Err? {
      return Err(found.error);
    }
    var d := Insert(db, dto, org, siteId, buildingId, floorId, found.value.id);
    r := Ok(d);
  }

  /** `update(..., roomId, id, update)` with `{new: true}`. */
  method Update(db: Database, siteId: Id, buildingId: Id, floorId: Id, roomId: Id, id: Id, patch: DevicePatch)
    returns (r: Result<Device>)
    modifies db
    ensures (db.State(), r) == Updated(old(db.State()), siteId, buildingId, floorId, roomId, id, patch)
    ensures db.deletedImages == old(db.deletedImages)
  {
    var room := FindRoom(db.State(), siteId, buildingId, floorId, roomId);
    if room.Err? {
      return Err(room.error);
    }
    var found := FindFirst(db.devices, DeviceScoped(id, room.value.id));
    if found.None? {
      return Err(NotFound(NotFoundMessage));
    }
    var v := Patched(found.value, patch);
    db.devices := ReplaceFirst(db.devices, DeviceScoped(id, room.value.id), v);
    r := Ok(v);
  }

  /** `remove(user, organizationId, siteId, buildingId, floorId, roomId, id)`. */
  method Remove(db: Database, org: Id, siteId: Id, buildingId: Id, floorId: Id, roomId: Id, id: Id)
    returns (r: Result<Device>)
    modifies db
    ensures (db.State(), r) == Removed(old(db.State()), org, siteId, buildingId, floorId, roomId, id)
    ensures db.deletedImages == old(db.deletedImages)
  {
    var room := FindRoom(db.State(), siteId, buildingId, floorId, roomId);
    if room.Err? {
      return Err(room.error);
    }
    var found := FindFirst(db.devices, DeviceScoped(id, room.value.id));
    if found.None? {
      return Err(NotFound(NotFoundMessage));
    }
    db.devices := DeleteFirst(db.devices, DeviceScoped(id, room.value.id));
    Tally(db, org, siteId, buildingId, floorId, room.value.id, -1);
    r := Ok(found.value);
  }

  // ---------------------------------------------------------------------------
  // Properties

  /** The `deviceCount` bumps above the room touch no counter the store keeps exact. */
  lemma OuterKeeps(t: Tables, org: Id, siteId: Id, buildingId: Id, floorId: Id, delta: int)
    requires Consistent(t)
    ensures Consistent(Outer(t, org, siteId, buildingId, floorId, delta))
    ensures CountersExact(t) ==> CountersExact(Outer(t, org, siteId, buildingId, floorId, delta))
  {
    var a := OrganizationService.Bumped(t, org, DeviceCount, delta);
    OrganizationService.BumpedKeeps(t, org, DeviceCount, delta);
    var b := SiteService.Bumped(a, siteId, DeviceCount, delta);
    SiteService.BumpedKeeps(a, siteId, DeviceCount, delta);
    var c := BuildingService.Bumped(b, buildingId, DeviceCount, delta);
    BuildingService.BumpedKeeps(b, buildingId, DeviceCount, delta);
    FloorService.BumpedKeeps(c, floorId, DeviceCount, delta);
  }

  /** The room's bump touches other documents than the outer bumps, so it may go first. */
  lemma TallyCommutes(t: Tables, org: Id, siteId: Id, buildingId: Id, floorId: Id, roomId: Id, delta: int)
    ensures Tallied(t, org, siteId, buildingId, floorId, roomId, delta)
         == Outer(RoomService.Bumped(t, roomId, DeviceCount, delta), org, siteId, buildingId, floorId, delta)
  {
  }

  /** A new device and its room's bump keep the store consistent and every counter exact. */
  lemma AddedTo(t: Tables, x: Room, d: Device)
    requires Consistent(t) && x in t.rooms
    requires d.id == t.nextId && d.room == x.id
    ensures var r := RoomService.Bumped(t.(devices := t.devices + [d], nextId := t.nextId + 1), x.id, DeviceCount, 1);
      Consistent(r) && (CountersExact(t) ==> CountersExact(r))
  {
    var q := RoomWithId(x.id);
    FindByKey(t.rooms, RoomKey, q, x);
    KeyedAppend(t.devices, DeviceKey, t.nextId, d);
    KeyedUpdate(t.rooms, RoomKey, t.nextId + 1, q, RoomInc(DeviceCount, 1));
    RefsUpdate(t.rooms, RoomFloor, t.nextId + 1, q, RoomInc(DeviceCount, 1));
    if CountersExact(t) {
      var bumped := RoomBump(x, DeviceCount, 1);
      ExactAfterChildReplaced(t.floors, FloorKey, FloorRoomCount, t.rooms, RoomFloor, q, bumped);
      ExactAfterChildAdded(t.rooms, RoomKey, RoomDeviceCount, t.devices, DeviceRoom, d, q, bumped);
    }
  }

  /** A deleted device and its room's bump keep the store consistent and every counter exact. */
  lemma DroppedFrom(t: Tables, x: Room, qd: Device -> bool)
    requires Consistent(t) && x in t.rooms
    requires FindFirst(t.devices, qd).Some? && FindFirst(t.devices, qd).value.room == x.id
    ensures var r := RoomService.Bumped(t.(devices := DeleteFirst(t.devices, qd)), x.id, DeviceCount, -1);
      Consistent(r) && (CountersExact(t) ==> CountersExact(r))
  {
    var q := RoomWithId(x.id);
    FindByKey(t.rooms, RoomKey, q, x);
    KeyedDeleteFirst(t.devices, DeviceKey, t.nextId, qd);
    RefsDeleteFirst(t.devices, DeviceRoom, t.nextId, qd);
    KeyedUpdate(t.rooms, RoomKey, t.nextId, q, RoomInc(DeviceCount, -1));
    RefsUpdate(t.rooms, RoomFloor, t.nextId, q, RoomInc(DeviceCount, -1));
    if CountersExact(t) {
      var bumped := RoomBump(x, DeviceCount, -1);
      ExactAfterChildReplaced(t.floors, FloorKey, FloorRoomCount, t.rooms, RoomFloor, q, bumped);
      ExactAfterChildRemoved(t.rooms, RoomKey, RoomDeviceCount, t.devices, DeviceRoom, qd, q, bumped);
    }
  }

  /** Creating a device keeps the store consistent and every counter exact: the room
      that now holds one more device counts one more. */
  lemma CreatedKeeps(t: Tables, org: Id, siteId: Id, buildingId: Id, floorId: Id, roomId: Id, dto: CreateDevice)
    requires Consistent(t)
    ensures Consistent(Created(t, org, siteId, buildingId, floorId, roomId, dto).0)
    ensures CountersExact(t) ==> CountersExact(Created(t, org, siteId, buildingId, floorId, roomId, dto).0)
  {
    if FindRoom(t, siteId, buildingId, floorId, roomId).Ok? {
      var x := FindRoom(t, siteId, buildingId, floorId, roomId).value;
      var d := NewDevice(t.nextId, dto, siteId, buildingId, floorId, x.id);
      var u := Appended(t, d);
      AddedTo(t, x, d);
      TallyCommutes(u, org, siteId, buildingId, floorId, x.id, 1);
      OuterKeeps(RoomService.Bumped(u, x.id, DeviceCount, 1), org, siteId, buildingId, floorId, 1);
    }
  }

  /** Removing a device keeps the store consistent and every counter exact. */
  lemma RemovedKeeps(t: Tables, org: Id, siteId: Id, buildingId: Id, floorId: Id, roomId: Id, id: Id)
    requires Consistent(t)
    ensures Consistent(Removed(t, org, siteId, buildingId, floorId, roomId, id).0)
    ensures CountersExact(t) ==> CountersExact(Removed(t, org, siteId, buildingId, floorId, roomId, id).0)
  {
    if FindOne(t, siteId, buildingId, floorId, roomId, id).Ok? {
      var x := FindRoom(t, siteId, buildingId, floorId, roomId).value;
      var qd := DeviceScoped(id, roomId);
      var u := t.(devices := DeleteFirst(t.devices, qd));
      DroppedFrom(t, x, qd);
      TallyCommutes(u, org, siteId, buildingId, floorId, roomId, -1);
      OuterKeeps(RoomService.Bumped(u, roomId, DeviceCount, -1), org, siteId, buildingId, floorId, -1);
    }
  }

  /** What the five bumps do, table by table. */
  lemma TalliedTables(t: Tables, org: Id, siteId: Id, buildingId: Id, floorId: Id, roomId: Id, delta: int)
    ensures var r := Tallied(t, org, siteId, buildingId, floorId, roomId, delta);
      && r.organizations == UpdateFirst(t.organizations, OrganizationWithId(org), OrganizationInc(DeviceCount, delta))
      && r.sites == UpdateFirst(t.sites, SiteWithId(siteId), SiteInc(DeviceCount, delta))
      && r.buildings == UpdateFirst(t.buildings, BuildingWithId(buildingId), BuildingInc(DeviceCount, delta))
      && r.floors == UpdateFirst(t.floors, FloorWithId(floorId), FloorInc(DeviceCount, delta))
      && r.rooms == UpdateFirst(t.rooms, RoomWithId(roomId), RoomInc(DeviceCount, delta))
  {
  }

  /** The four hops of `findRoom` see the same documents in `a` and `b`. */
  lemma SameLookups(a: Tables, b: Tables, siteId: Id, buildingId: Id, floorId: Id, roomId: Id)
    requires FindFirst(a.sites, SiteWithId(siteId)).Some? <==> FindFirst(b.sites, SiteWithId(siteId)).Some?
    requires FindFirst(a.buildings, BuildingScoped(buildingId, siteId)).Some?
         <==> FindFirst(b.buildings, BuildingScoped(buildingId, siteId)).Some?
    requires FindFirst(a.floors, FloorScoped(floorId, buildingId)).Some?
         <==> FindFirst(b.floors, FloorScoped(floorId, buildingId)).Some?
    requires FindFirst(a.rooms, RoomScoped(roomId, floorId)).Some?
         <==> FindFirst(b.rooms, RoomScoped(roomId, floorId)).Some?
    ensures FindRoom(a, siteId, buildingId, floorId, roomId).Ok? <==> FindRoom(b, siteId, buildingId, floorId, roomId).Ok?
  {
  }

  /** A `deviceCount` bump keeps each hop of `findRoom` finding what it found. */
  lemma SitesHop(s: seq<Site>, siteId: Id, delta: int)
    ensures FindFirst(UpdateFirst(s, SiteWithId(siteId), SiteInc(DeviceCount, delta)), SiteWithId(siteId)).Some?
        <==> FindFirst(s, SiteWithId(siteId)).Some?
  {
    FoundAfterUpdate(s, SiteWithId(siteId), SiteInc(DeviceCount, delta), SiteWithId(siteId));
  }

  lemma BuildingsHop(s: seq<Building>, buildingId: Id, siteId: Id, delta: int)
    ensures FindFirst(UpdateFirst(s, BuildingWithId(buildingId), BuildingInc(DeviceCount, delta)),
                      BuildingScoped(buildingId, siteId)).Some?
        <==> FindFirst(s, BuildingScoped(buildingId, siteId)).Some?
  {
    FoundAfterUpdate(s, BuildingWithId(buildingId), BuildingInc(DeviceCount, delta), BuildingScoped(buildingId, siteId));
  }

  lemma FloorsHop(s: seq<Floor>, floorId: Id, buildingId: Id, delta: int)
    ensures FindFirst(UpdateFirst(s, FloorWithId(floorId), FloorInc(DeviceCount, delta)),
                      FloorScoped(floorId, buildingId)).Some?
        <==> FindFirst(s, FloorScoped(floorId, buildingId)).Some?
  {
    FoundAfterUpdate(s, FloorWithId(floorId), FloorInc(DeviceCount, delta), FloorScoped(floorId, buildingId));
  }

  lemma RoomsHop(s: seq<Room>, roomId: Id, floorId: Id, delta: int)
    ensures FindFirst(UpdateFirst(s, RoomWithId(roomId), RoomInc(DeviceCount, delta)),
                      RoomScoped(roomId, floorId)).Some?
        <==> FindFirst(s, RoomScoped(roomId, floorId)).Some?
  {
    FoundAfterUpdate(s, RoomWithId(roomId), RoomInc(DeviceCount, delta), RoomScoped(roomId, floorId));
  }

  /** The `deviceCount` bumps change no id and no parent, so every room `findRoom`
      reaches before them it reaches after them. */
  lemma TalliedKeepsLookups(t: Tables, org: Id, siteId: Id, buildingId: Id, floorId: Id, roomId: Id, delta: int)
    ensures var r := Tallied(t, org, siteId, buildingId, floorId, roomId, delta);
      FindRoom(r, siteId, buildingId, floorId, roomId).Ok? <==> FindRoom(t, siteId, buildingId, floorId, roomId).Ok?
  {
    var r := Tallied(t, org, siteId, buildingId, floorId, roomId, delta);
    TalliedTables(t, org, siteId, buildingId, floorId, roomId, delta);
    SitesHop(t.sites, siteId, delta);
    BuildingsHop(t.buildings, buildingId, siteId, delta);
    FloorsHop(t.floors, floorId, buildingId, delta);
    RoomsHop(t.rooms, roomId, floorId, delta);
    SameLookups(r, t, siteId, buildingId, floorId, roomId);
  }

  /** `remove` undoes the counter changes of `create`. */
  lemma TalliedRoundTrip(t: Tables, org: Id, siteId: Id, buildingId: Id, floorId: Id, roomId: Id)
    ensures Tallied(Tallied(t, org, siteId, buildingId, floorId, roomId, 1), org, siteId, buildingId, floorId, roomId, -1) == t
  {
    var up := Tallied(t, org, siteId, buildingId, floorId, roomId, 1);
    TalliedTables(t, org, siteId, buildingId, floorId, roomId, 1);
    TalliedTables(up, org, siteId, buildingId, floorId, roomId, -1);
    OrganizationService.BumpedRoundTrip(t, org, DeviceCount);
    SiteService.BumpedRoundTrip(t, siteId, DeviceCount);
    BuildingService.BumpedRoundTrip(t, buildingId, DeviceCount);
    FloorService.BumpedRoundTrip(t, floorId, DeviceCount);
    RoomService.BumpedRoundTrip(t, roomId, DeviceCount);
  }

  /** The created device is found at once under its room, by its new id. */
  lemma CreatedIsFound(t: Tables, org: Id, siteId: Id, buildingId: Id, floorId: Id, roomId: Id, dto: CreateDevice)
    requires Consistent(t)
    ensures var c := Created(t, org, siteId, buildingId, floorId, roomId, dto);
      c.1.Ok? ==> c.1.value.id == t.nextId && FindOne(c.0, siteId, buildingId, floorId, roomId, t.nextId) == c.1
  {
    var c := Created(t, org, siteId, buildingId, floorId, roomId, dto);
    if c.1.Ok? {
      var d := c.1.value;
      var u := Appended(t, d);
      SameLookups(u, t, siteId, buildingId, floorId, roomId);
      TalliedKeepsLookups(u, org, siteId, buildingId, floorId, roomId, 1);
      FindAppended(t.devices, d, DeviceScoped(d.id, roomId));
      assert c.0.devices == u.devices;
    }
  }

  /** Updating a device keeps the store consistent and every counter exact. */
  lemma UpdatedKeeps(t: Tables, siteId: Id, buildingId: Id, floorId: Id, roomId: Id, id: Id, patch: DevicePatch)
    requires Consistent(t)
    ensures Consistent(Updated(t, siteId, buildingId, floorId, roomId, id, patch).0)
    ensures CountersExact(t) ==> CountersExact(Updated(t, siteId, buildingId, floorId, roomId, id, patch).0)
  {
    if FindOne(t, siteId, buildingId, floorId, roomId, id).Ok? {
      var v := Patched(FindOne(t, siteId, buildingId, floorId, roomId, id).value, patch);
      var q := DeviceScoped(id, roomId);
      KeyedUpdate(t.devices, DeviceKey, t.nextId, q, (d: Device) => v);
      RefsUpdate(t.devices, DeviceRoom, t.nextId, q, (d: Device) => v);
      if CountersExact(t) {
        ExactAfterChildReplaced(t.rooms, RoomKey, RoomDeviceCount, t.devices, DeviceRoom, q, v);
      }
    }
  }

  /** After an update the device reads back as the update returned it; other devices
      of the room read back unchanged. */
  lemma UpdatedIsFound(t: Tables, siteId: Id, buildingId: Id, floorId: Id, roomId: Id, id: Id, patch: DevicePatch, id': Id)
    ensures var r := Updated(t, siteId, buildingId, floorId, roomId, id, patch);
      r.1.Ok? ==> FindOne(r.0, siteId, buildingId, floorId, roomId, id) == r.1
    ensures id' != id ==>
      FindOne(Updated(t, siteId, buildingId, floorId, roomId, id, patch).0, siteId, buildingId, floorId, roomId, id')
        == FindOne(t, siteId, buildingId, floorId, roomId, id')
  {
    if FindOne(t, siteId, buildingId, floorId, roomId, id).Ok? {
      var v := Patched(FindOne(t, siteId, buildingId, floorId, roomId, id).value, patch);
      FindReplaced(t.devices, DeviceScoped(id, roomId), v);
      if id' != id {
        FindAfterReplace(t.devices, DeviceScoped(id, roomId), v, DeviceScoped(id', roomId));
      }
    }
  }

  /** After `remove` the device is no longer found, while its room still is: the
      bumps moved counters only. */
  lemma RemovedIsGone(t: Tables, org: Id, siteId: Id, buildingId: Id, floorId: Id, roomId: Id, id: Id)
    requires Consistent(t)
    ensures var r := Removed(t, org, siteId, buildingId, floorId, roomId, id);
      r.1.Ok? ==>
        && FindRoom(r.0, siteId, buildingId, floorId, roomId).Ok?
        && FindOne(r.0, siteId, buildingId, floorId, roomId, id) == Err(NotFound(NotFoundMessage))
  {
    if FindOne(t, siteId, buildingId, floorId, roomId, id).Ok? {
      var qd := DeviceScoped(id, roomId);
      var u := t.(devices := DeleteFirst(t.devices, qd));
      SameLookups(u, t, siteId, buildingId, floorId, roomId);
      TalliedKeepsLookups(u, org, siteId, buildingId, floorId, roomId, -1);
      UniqueDeleteFirstGone(t.devices, DeviceKey, qd);
    }
  }

  /** Removing the device just created gives back the store as it was, every counter
      included; only the id counter has moved on. */
  lemma CreatedThenRemoved(t: Tables, org: Id, siteId: Id, buildingId: Id, floorId: Id, roomId: Id, dto: CreateDevice)
    requires Consistent(t)
    ensures var c := Created(t, org, siteId, buildingId, floorId, roomId, dto);
      c.1.Ok? ==> Removed(c.0, org, siteId, buildingId, floorId, roomId, c.1.value.id) == (t.(nextId := t.nextId + 1), c.1)
  {
    var c := Created(t, org, siteId, buildingId, floorId, roomId, dto);
    if c.1.Ok? {
      var d := c.1.value;
      CreatedIsFound(t, org, siteId, buildingId, floorId, roomId, dto);
      var qd := DeviceScoped(d.id, roomId);
      DeleteAppended(t.devices, d, qd);
      assert c.0.(devices := DeleteFirst(c.0.devices, qd)) == Tallied(t.(nextId := t.nextId + 1), org, siteId, buildingId, floorId, roomId, 1);
      TalliedRoundTrip(t.(nextId := t.nextId + 1), org, siteId, buildingId, floorId, roomId);
    }
  }
}
