/** `FloorService`: floors belong to a building, which is resolved through
    `BuildingService.findOne` (and so through its site) before every operation.
    Single-floor reads, updates and deletions answer with the `-building` projection. */
module FloorService {
  import opened Wrappers
  import opened Records
  import opened Collection
  import opened Counting
  import opened Pagination
  import opened Store
  import opened Cascade
  import SiteService
  import BuildingService

  const NotFoundMessage := "Floor not found"

  /** `CreateFloorDto`. */
  datatype CreateFloor = CreateFloor(name: string, description: Option<string>)

  /** The update DTO's fields or the `{diagram}` of the diagram upload route. */
  datatype FloorPatch = FloorPatch(name: Option<string>, description: Option<string>, diagram: Option<Url>)

  /** A floor under the `-building` projection. */
  datatype FloorView = FloorView(
    id: Id, name: string, description: Option<string>,
    roomCount: int, deviceCount: int, pointsCount: int, diagram: Option<Url>)

  function View(f: Floor): (v: FloorView)
    ensures v.id == f.id && v.name == f.name && v.diagram == f.diagram && v.roomCount == f.roomCount
  {
    FloorView(f.id, f.name, f.description, f.roomCount, f.deviceCount, f.pointsCount, f.diagram)
  }

  /** The projection drops the parent reference and nothing else: two floors of one
      building look alike exactly when they are alike. */
  lemma ViewDropsOnlyBuilding(f: Floor, g: Floor)
    requires f.building == g.building
    ensures View(f) == View(g) <==> f == g
  {
  }

  /** A floor as the listing's `$project` stage shapes it: `building` and
      `pointsCount` are not among the kept fields. */
  datatype FloorListing = FloorListing(
    id: Id, name: string, description: Option<string>,
    roomCount: int, deviceCount: int, diagram: Option<Url>)

  function Listing(f: Floor): (l: FloorListing)
    ensures l.id == f.id && l.name == f.name && l.diagram == f.diagram && l.roomCount == f.roomCount
  {
    FloorListing(f.id, f.name, f.description, f.roomCount, f.deviceCount, f.diagram)
  }

  /** The listing drops the parent reference and the points count and nothing else. */
  lemma ListingDropsBuildingAndPoints(f: Floor, g: Floor)
    requires f.building == g.building && f.pointsCount == g.pointsCount
    ensures Listing(f) == Listing(g) <==> f == g
  {
  }

  /** The `$project` stage applied to each floor of a page. */
  function Listings(floors: seq<Floor>): (r: seq<FloorListing>)
    ensures |r| == |floors|
    ensures forall i :: 0 <= i < |floors| ==> r[i] == Listing(floors[i])
  {
    seq(|floors|, i requires 0 <= i < |floors| => Listing(floors[i]))
  }

  /** Each listed entry is the projection of a stored floor that the filter selects. */
  lemma ListedAreFloors(t: Tables, search: Option<NameQuery>, buildingId: Id, found: seq<Floor>, listed: seq<FloorListing>)
    requires forall f :: f in found ==> f in Where(t.floors, FloorNamed(search, buildingId))
    requires |listed| == |found| && forall i :: 0 <= i < |listed| ==> listed[i] == Listing(found[i])
    ensures forall x :: x in listed ==> exists f ::
      f in t.floors && f.building == buildingId && (search.None? || search.value(f.name)) && x == Listing(f)
  {
    forall x | x in listed
      ensures exists f ::
        f in t.floors && f.building == buildingId && (search.None? || search.value(f.name)) && x == Listing(f)
    {
      var i :| 0 <= i < |listed| && listed[i] == x;
      assert found[i] in Where(t.floors, FloorNamed(search, buildingId));
      assert FloorNamed(search, buildingId)(found[i]);
    }
  }

  function NewFloor(id: Id, building: Id, dto: CreateFloor): Floor {
    Floor(id, dto.name, dto.description, 0, 0, 0, None, building)
  }

  /** An update never changes a floor's key, building or counters. */
  function Patched(f: Floor, patch: FloorPatch): (r: Floor)
    ensures r.id == f.id && r.building == f.building
    ensures r.roomCount == f.roomCount && r.deviceCount == f.deviceCount && r.pointsCount == f.pointsCount
    ensures patch == FloorPatch(None, None, None) ==> r == f
  {
    f.(name := if patch.name.Some? then patch.name.value else f.name,
       description := if patch.description.Some? then patch.description else f.description,
       diagram := if patch.diagram.Some? then patch.diagram else f.diagram)
  }

  // ---------------------------------------------------------------------------
  // Reads

  /** The stored floor behind `findOne`, before the projection. */
  function Lookup(t: Tables, siteId: Id, buildingId: Id, id: Id): (r: Result<Floor>)
    ensures r.Ok? ==> r.value in t.floors && r.value.id == id && r.value.building == buildingId
    ensures r.Ok? ==> FindFirst(t.floors, FloorScoped(id, buildingId)) == Some(r.value)
    ensures r.Err? <==>
      BuildingService.FindOne(t, siteId, buildingId).Err? || forall f :: f in t.floors ==> !(f.id == id && f.building == buildingId)
    ensures r.Err? ==>
      r.error == if BuildingService.FindOne(t, siteId, buildingId).Err?
                 then BuildingService.FindOne(t, siteId, buildingId).error else NotFound(NotFoundMessage)
  {
    var building :- BuildingService.FindOne(t, siteId, buildingId);
    FindOr(t.floors, FloorScoped(id, building.id), NotFoundMessage)
  }

  /** `findOne(siteId, buildingId, id)`. */
  function FindOne(t: Tables, siteId: Id, buildingId: Id, id: Id): (r: Result<FloorView>)
    ensures r.Err? <==> Lookup(t, siteId, buildingId, id).Err?
    ensures r.Err? ==> r.error == Lookup(t, siteId, buildingId, id).error
    ensures r.Ok? ==> exists f :: f in t.floors && f.id == id && f.building == buildingId && r.value == View(f)
  {
    var f :- Lookup(t, siteId, buildingId, id);
    Ok(View(f))
  }

  /** `findAll(siteId, buildingId, search, pagination)`: the building's floors only. */
  function FindAll(t: Tables, siteId: Id, buildingId: Id, search: Option<NameQuery>, options: Options)
    : (r: Result<Page<FloorListing>>)
    ensures r.Err? <==> BuildingService.FindOne(t, siteId, buildingId).Err?
    ensures r.Ok? ==> forall x :: x in r.value.results ==> exists f ::
      f in t.floors && f.building == buildingId && (search.None? || search.value(f.name)) && x == Listing(f)
    ensures r.Ok? ==> r.value.pagination.totalResults == Count(t.floors, FloorNamed(search, buildingId))
    ensures r.Ok? ==> |r.value.results| <= r.value.pagination.limit
  {
    var building :- BuildingService.FindOne(t, siteId, buildingId);
    var p := PaginatedAggregation(Where(t.floors, FloorNamed(search, building.id)), options);
    var listed := Listings(p.results);
    ListedAreFloors(t, search, building.id, p.results, listed);
    Ok(Page(listed, p.pagination))
  }

  // ---------------------------------------------------------------------------
  // What each change leaves behind

  /** The new floor, linked to the resolved building, whose `floorCount` is one up. */
  function Created(t: Tables, siteId: Id, buildingId: Id, dto: CreateFloor): (r: (Tables, Result<Floor>))
    ensures r.1.Err? <==> BuildingService.FindOne(t, siteId, buildingId).Err?
    ensures r.1.Err? ==> r == (t, Err(BuildingService.FindOne(t, siteId, buildingId).error))
    ensures r.1.Ok? ==> r.1.value == NewFloor(t.nextId, buildingId, dto)
    ensures r.1.Ok? ==> r.0.floors == t.floors + [r.1.value] && r.0.nextId == t.nextId + 1
    ensures r.0 == t.(buildings := r.0.buildings, floors := r.0.floors, nextId := r.0.nextId)
  {
    match BuildingService.FindOne(t, siteId, buildingId)
    case Err(e) => (t, Err(e))
    case Ok(building) =>
      var f := NewFloor(t.nextId, building.id, dto);
      var u := t.(floors := t.floors + [f], nextId := t.nextId + 1);
      (BuildingService.Bumped(u, building.id, FloorCount, 1), Ok(f))
  }

  function Updated(t: Tables, siteId: Id, buildingId: Id, id: Id, patch: FloorPatch): (r: (Tables, Result<FloorView>))
    ensures r.1.Err? <==> Lookup(t, siteId, buildingId, id).Err?
    ensures r.1.Err? ==> r == (t, FindOne(t, siteId, buildingId, id))
    ensures r.1.Ok? ==> r.1.value == View(Patched(Lookup(t, siteId, buildingId, id).value, patch))
    ensures r.0 == t.(floors := r.0.floors)
  {
    match Lookup(t, siteId, buildingId, id)
    case Err(e) => (t, Err(e))
    case Ok(f) =>
      var v := Patched(f, patch);
      (t.(floors := ReplaceFirst(t.floors, FloorScoped(id, buildingId), v)), Ok(View(v)))
  }

  /** The floor is gone, its building's `floorCount` is one down, and its rooms and
      their devices are gone. */
  ghost function Removed(t: Tables, siteId: Id, buildingId: Id, id: Id): (r: (Tables, Result<FloorView>))
    ensures r.1 == FindOne(t, siteId, buildingId, id)
    ensures r.1.Err? ==> r.0 == t
  {
    match Lookup(t, siteId, buildingId, id)
    case Err(e) => (t, Err(e))
    case Ok(f) =>
      var u := t.(floors := DeleteFirst(t.floors, FloorScoped(id, buildingId)));
      (WithoutRooms(BuildingService.Bumped(u, buildingId, FloorCount, -1), {id}), Ok(View(f)))
  }

  /** `$inc: {[field]: delta}` on the floor with that id, if any. */
  function Bumped(t: Tables, id: Id, field: CountField, delta: int): (r: Tables)
    ensures r == t.(floors := r.floors) && |r.floors| == |t.floors|
  {
    t.(floors := UpdateFirst(t.floors, FloorWithId(id), FloorInc(field, delta)))
  }

  // ---------------------------------------------------------------------------
  // The service

  /** `create(siteId, buildingId, dto)`. */
  method Create(db: Database, siteId: Id, buildingId: Id, dto: CreateFloor) returns (r: Result<Floor>)
    modifies db
    ensures (db.State(), r) == Created(old(db.State()), siteId, buildingId, dto)
    ensures db.deletedImages == old(db.deletedImages)
  {
    var found := BuildingService.FindOne(db.State(), siteId, buildingId);
    if found.Err? {
      return Err(found.error);
    }
    var building := found.value;
    var id := db.NewId();
    var f := NewFloor(id, building.id, dto);
    db.floors := db.floors + [f];
    var _ := BuildingService.IncreaseStats(db, building.id, FloorCount);
    r := Ok(f);
  }

  /** `update(siteId, buildingId, id, update)` with `{new: true, projection: '-building'}`. */
  method Update(db: Database, siteId: Id, buildingId: Id, id: Id, patch: FloorPatch) returns (r: Result<FloorView>)
    modifies db
    ensures (db.State(), r) == Updated(old(db.State()), siteId, buildingId, id, patch)
    ensures db.deletedImages == old(db.deletedImages)
  {
    var building := BuildingService.FindOne(db.State(), siteId, buildingId);
    if building.Err? {
      return Err(building.error);
    }
    var found := FindFirst(db.floors, FloorScoped(id, building.value.id));
    if found.None? {
      return Err(NotFound(NotFoundMessage));
    }
    var v := Patched(found.value, patch);
    db.floors := ReplaceFirst(db.floors, FloorScoped(id, building.value.id), v);
    r := Ok(View(v));
  }

  /** `remove(siteId, buildingId, id)`: delete the floor, lower the building's
      `floorCount`, delete the diagram (set or not), then clear the floor's rooms. */
  method Remove(db: Database, siteId: Id, buildingId: Id, id: Id) returns (r: Result<FloorView>)
    modifies db
    ensures (db.State(), r) == Removed(old(db.State()), siteId, buildingId, id)
    ensures r.Err? ==> db.deletedImages == old(db.deletedImages)
    ensures r.Ok? ==>
      db.deletedImages == old(db.deletedImages) + [r.value.diagram] + SetImages(Where(old(db.rooms), RoomOf(id)), RoomDiagram)
  {
    var building := BuildingService.FindOne(db.State(), siteId, buildingId);
    if building.Err? {
      return Err(building.error);
    }
    var found := FindFirst(db.floors, FloorScoped(id, building.value.id));
    if found.None? {
      return Err(NotFound(NotFoundMessage));
    }
    var floor := found.value;
    db.floors := DeleteFirst(db.floors, FloorScoped(id, building.value.id));
    var _ := BuildingService.DecreaseStats(db, building.value.id, FloorCount);
    db.DeleteImage(floor.diagram);
    RemoveFloorRooms(db, floor.id);
    r := Ok(View(floor));
  }

  /** `increaseStats(id, field)`; the result is the floor before the increment. */
  method IncreaseStats(db: Database, id: Id, field: CountField) returns (before: Option<Floor>)
    modifies db
    ensures before == FindFirst(old(db.floors), FloorWithId(id))
    ensures db.State() == Bumped(old(db.State()), id, field, 1)
    ensures db.deletedImages == old(db.deletedImages)
  {
    before := FindFirst(db.floors, FloorWithId(id));
    db.floors := UpdateFirst(db.floors, FloorWithId(id), FloorInc(field, 1));
  }

  /** `decreaseStats(id, field)`. */
  method DecreaseStats(db: Database, id: Id, field: CountField) returns (before: Option<Floor>)
    modifies db
    ensures before == FindFirst(old(db.floors), FloorWithId(id))
    ensures db.State() == Bumped(old(db.State()), id, field, -1)
    ensures db.deletedImages == old(db.deletedImages)
  {
    before := FindFirst(db.floors, FloorWithId(id));
    db.floors := UpdateFirst(db.floors, FloorWithId(id), FloorInc(field, -1));
  }

  // ---------------------------------------------------------------------------
  // Properties

  /** Creating a floor keeps the store consistent and every counter exact: the one
      raised is the building's, and the new floor has no rooms yet. */
  lemma CreatedKeeps(t: Tables, siteId: Id, buildingId: Id, dto: CreateFloor)
    requires Consistent(t)
    ensures Consistent(Created(t, siteId, buildingId, dto).0)
    ensures CountersExact(t) ==> CountersExact(Created(t, siteId, buildingId, dto).0)
  {
    if BuildingService.FindOne(t, siteId, buildingId).Ok? {
      var b := BuildingService.FindOne(t, siteId, buildingId).value;
      AddedUnder(t, b, NewFloor(t.nextId, b.id, dto));
    }
  }

  /** Appending a fresh floor `f` under the stored building `b` and raising the
      building's `floorCount` keeps both invariants. */
  lemma AddedUnder(t: Tables, b: Building, f: Floor)
    requires Consistent(t) && b in t.buildings
    requires f.id == t.nextId && f.building == b.id && f.roomCount == 0
    ensures var r := BuildingService.Bumped(t.(floors := t.floors + [f], nextId := t.nextId + 1), b.id, FloorCount, 1);
      Consistent(r) && (CountersExact(t) ==> CountersExact(r))
  {
    var q := BuildingWithId(b.id);
    FindByKey(t.buildings, BuildingKey, q, b);
    KeyedAppend(t.floors, FloorKey, t.nextId, f);
    KeyedUpdate(t.buildings, BuildingKey, t.nextId + 1, q, BuildingInc(FloorCount, 1));
    RefsUpdate(t.buildings, BuildingSite, t.nextId + 1, q, BuildingInc(FloorCount, 1));
    if CountersExact(t) {
      AddedUnderExact(t, b, f);
    }
  }

  lemma AddedUnderExact(t: Tables, b: Building, f: Floor)
    requires Consistent(t) && b in t.buildings
    requires f.id == t.nextId && f.building == b.id && f.roomCount == 0 && CountersExact(t)
    ensures var r := BuildingService.Bumped(t.(floors := t.floors + [f], nextId := t.nextId + 1), b.id, FloorCount, 1);
      CountersExact(r)
  {
    var q := BuildingWithId(b.id);
    FindByKey(t.buildings, BuildingKey, q, b);
    KeyedAppend(t.floors, FloorKey, t.nextId, f);
    KeyedUpdate(t.buildings, BuildingKey, t.nextId + 1, q, BuildingInc(FloorCount, 1));
    RefsUpdate(t.buildings, BuildingSite, t.nextId + 1, q, BuildingInc(FloorCount, 1));
    var bumped := BuildingBump(b, FloorCount, 1);
    ExactAfterChildReplaced(t.sites, SiteKey, SiteBuildingCount, t.buildings, BuildingSite, q, bumped);
    ExactAfterChildAdded(t.buildings, BuildingKey, BuildingFloorCount, t.floors, FloorBuilding, f, q, bumped);
    ExactAfterParentAdded(t.floors, FloorKey, FloorRoomCount, t.rooms, RoomFloor, f);
  }

  /** After a create the floor is found under its building, and the building's
      `floorCount` is exactly one higher, its other fields unchanged. */
  lemma CreatedIsFound(t: Tables, siteId: Id, buildingId: Id, dto: CreateFloor)
    requires Consistent(t) && BuildingService.FindOne(t, siteId, buildingId).Ok?
    ensures var r := Created(t, siteId, buildingId, dto);
      var b := BuildingService.FindOne(t, siteId, buildingId).value;
      && Lookup(r.0, siteId, buildingId, t.nextId) == r.1
      && BuildingService.FindOne(r.0, siteId, buildingId) == Ok(b.(floorCount := b.floorCount + 1))
  {
    var b := BuildingService.FindOne(t, siteId, buildingId).value;
    var f := NewFloor(t.nextId, b.id, dto);
    var u := t.(floors := t.floors + [f], nextId := t.nextId + 1);
    var q := BuildingWithId(b.id);
    FindByKey(t.buildings, BuildingKey, q, b);
    FindReplaced(t.buildings, q, BuildingBump(b, FloorCount, 1));
    UniqueReplaceFirst(t.buildings, BuildingKey, q, BuildingBump(b, FloorCount, 1));
    var r := BuildingService.Bumped(u, b.id, FloorCount, 1);
    InReplaceFirst(t.buildings, q, BuildingBump(b, FloorCount, 1), BuildingBump(b, FloorCount, 1));
    FindByKey(r.buildings, BuildingKey, BuildingScoped(buildingId, siteId), BuildingBump(b, FloorCount, 1));
    FindAppended(t.floors, f, FloorScoped(t.nextId, buildingId));
  }

  lemma UpdatedKeeps(t: Tables, siteId: Id, buildingId: Id, id: Id, patch: FloorPatch)
    requires Consistent(t)
    ensures Consistent(Updated(t, siteId, buildingId, id, patch).0)
    ensures CountersExact(t) ==> CountersExact(Updated(t, siteId, buildingId, id, patch).0)
  {
    if Lookup(t, siteId, buildingId, id).Ok? {
      var v := Patched(Lookup(t, siteId, buildingId, id).value, patch);
      var q := FloorScoped(id, buildingId);
      KeyedUpdate(t.floors, FloorKey, t.nextId, q, (x: Floor) => v);
      RefsUpdate(t.floors, FloorBuilding, t.nextId, q, (x: Floor) => v);
      if CountersExact(t) {
        ExactAfterChildReplaced(t.buildings, BuildingKey, BuildingFloorCount, t.floors, FloorBuilding, q, v);
        ExactAfterParentReplaced(t.floors, FloorKey, FloorRoomCount, t.rooms, RoomFloor, q, v);
      }
    }
  }

  /** After an update the floor is found as the update returned it; other floors are
      unaffected. */
  lemma UpdatedIsFound(t: Tables, siteId: Id, buildingId: Id, id: Id, patch: FloorPatch, id': Id)
    ensures Updated(t, siteId, buildingId, id, patch).1.Ok? ==>
      FindOne(Updated(t, siteId, buildingId, id, patch).0, siteId, buildingId, id) == Updated(t, siteId, buildingId, id, patch).1
    ensures id' != id ==>
      FindOne(Updated(t, siteId, buildingId, id, patch).0, siteId, buildingId, id') == FindOne(t, siteId, buildingId, id')
  {
    if Lookup(t, siteId, buildingId, id).Ok? {
      var v := Patched(Lookup(t, siteId, buildingId, id).value, patch);
      FindReplaced(t.floors, FloorScoped(id, buildingId), v);
      if id' != id {
        FindAfterReplace(t.floors, FloorScoped(id, buildingId), v, FloorScoped(id', buildingId));
      }
    }
  }

  lemma RemovedKeeps(t: Tables, siteId: Id, buildingId: Id, id: Id)
    requires Consistent(t)
    ensures Consistent(Removed(t, siteId, buildingId, id).0)
    ensures CountersExact(t) ==> CountersExact(Removed(t, siteId, buildingId, id).0)
  {
    if Lookup(t, siteId, buildingId, id).Ok? {
      var b := BuildingService.FindOne(t, siteId, buildingId).value;
      var qf := FloorScoped(id, buildingId);
      var qb := BuildingWithId(buildingId);
      var u := t.(floors := DeleteFirst(t.floors, qf));
      var v := BuildingService.Bumped(u, buildingId, FloorCount, -1);
      FindByKey(t.buildings, BuildingKey, qb, b);
      KeyedDeleteFirst(t.floors, FloorKey, t.nextId, qf);
      RefsDeleteFirst(t.floors, FloorBuilding, t.nextId, qf);
      KeyedUpdate(t.buildings, BuildingKey, t.nextId, qb, BuildingInc(FloorCount, -1));
      RefsUpdate(t.buildings, BuildingSite, t.nextId, qb, BuildingInc(FloorCount, -1));
      assert Consistent(v);
      ConsistentWithoutRooms(v, {id});
      if CountersExact(t) {
        var bumped := BuildingBump(b, FloorCount, -1);
        ExactAfterChildReplaced(t.sites, SiteKey, SiteBuildingCount, t.buildings, BuildingSite, qb, bumped);
        ExactAfterChildRemoved(t.buildings, BuildingKey, BuildingFloorCount, t.floors, FloorBuilding, qf, qb, bumped);
        forall x | x in u.floors ensures x in t.floors {
          InDeleteFirst(t.floors, qf, x);
        }
        ExactOnFewerParents(t.floors, u.floors, FloorKey, FloorRoomCount, t.rooms, RoomFloor);
        UniqueDeleteFirstGone(t.floors, FloorKey, qf);
        CountersWithoutRooms(v, {id});
      }
    }
  }

  /** A removal lowers the building's `floorCount` by one and changes none of its
      other fields, so the building's and the site's `deviceCount` keep counting the
      devices deleted with the floor's rooms; the floor is not found afterwards. */
  lemma RemovedFromBuilding(t: Tables, siteId: Id, buildingId: Id, id: Id, other: Id)
    requires Consistent(t) && Lookup(t, siteId, buildingId, id).Ok?
    ensures var r := Removed(t, siteId, buildingId, id).0;
      var b := BuildingService.FindOne(t, siteId, buildingId).value;
      && r.sites == t.sites
      && FindFirst(r.buildings, BuildingWithId(buildingId)) == Some(b.(floorCount := b.floorCount - 1))
      && (other != buildingId ==>
            FindFirst(r.buildings, BuildingWithId(other)) == FindFirst(t.buildings, BuildingWithId(other)))
      && (forall f :: f in r.floors <==> f in t.floors && f.id != id)
  {
    var b := BuildingService.FindOne(t, siteId, buildingId).value;
    var qf := FloorScoped(id, buildingId);
    var u := t.(floors := DeleteFirst(t.floors, qf));
    FindByKey(t.buildings, BuildingKey, BuildingWithId(buildingId), b);
    BuildingService.BumpedOneField(u, buildingId, FloorCount, -1, other);
    InDeleteFirstIff(t.floors, FloorKey, qf);
  }

  /** A removal deletes exactly the floor's rooms and those rooms' devices; sites,
      users, organizations and events are untouched. */
  lemma RemovedExactly(t: Tables, siteId: Id, buildingId: Id, id: Id)
    requires Lookup(t, siteId, buildingId, id).Ok?
    ensures var r := Removed(t, siteId, buildingId, id).0;
      var rs := RoomsOn(t, {id});
      && r.sites == t.sites
      && r.users == t.users && r.organizations == t.organizations && r.events == t.events
      && (forall x :: x in r.rooms <==> x in t.rooms && x.floor != id)
      && (forall d :: d in r.devices <==> d in t.devices && d.room !in rs)
  {
    var qf := FloorScoped(id, buildingId);
    var u := t.(floors := DeleteFirst(t.floors, qf));
    var v := BuildingService.Bumped(u, buildingId, FloorCount, -1);
    WithoutRoomsExactly(v, {id});
    assert RoomsOn(v, {id}) == RoomsOn(t, {id});
  }

  lemma BumpedKeeps(t: Tables, id: Id, field: CountField, delta: int)
    requires Consistent(t)
    ensures Consistent(Bumped(t, id, field, delta))
    ensures CountersExact(t) && field != RoomCount ==> CountersExact(Bumped(t, id, field, delta))
  {
    var q := FloorWithId(id);
    KeyedUpdate(t.floors, FloorKey, t.nextId, q, FloorInc(field, delta));
    RefsUpdate(t.floors, FloorBuilding, t.nextId, q, FloorInc(field, delta));
    if FindFirst(t.floors, q).Some? && CountersExact(t) && field != RoomCount {
      var f := FindFirst(t.floors, q).value;
      ExactAfterChildReplaced(t.buildings, BuildingKey, BuildingFloorCount, t.floors, FloorBuilding, q,
                              FloorBump(f, field, delta));
      ExactAfterParentReplaced(t.floors, FloorKey, FloorRoomCount, t.rooms, RoomFloor, q, FloorBump(f, field, delta));
    }
  }

  /** `$inc` changes the named counter of the named floor by `delta`; other floors are
      unaffected. */
  lemma BumpedOneField(t: Tables, id: Id, field: CountField, delta: int, id': Id)
    ensures FindFirst(Bumped(t, id, field, delta).floors, FloorWithId(id)) ==
      match FindFirst(t.floors, FloorWithId(id))
      case Some(f) => Some(FloorBump(f, field, delta))
      case None => None
    ensures id' != id ==>
      FindFirst(Bumped(t, id, field, delta).floors, FloorWithId(id')) == FindFirst(t.floors, FloorWithId(id'))
  {
    var q := FloorWithId(id);
    if FindFirst(t.floors, q).Some? {
      var f := FindFirst(t.floors, q).value;
      FindReplaced(t.floors, q, FloorBump(f, field, delta));
      if id' != id {
        FindAfterReplace(t.floors, q, FloorBump(f, field, delta), FloorWithId(id'));
      }
    }
  }

  /** `decreaseStats` undoes `increaseStats`. */
  lemma BumpedRoundTrip(t: Tables, id: Id, field: CountField)
    ensures Bumped(Bumped(t, id, field, 1), id, field, -1) == t
  {
    var q := FloorWithId(id);
    if FindFirst(t.floors, q).Some? {
      var f := FindFirst(t.floors, q).value;
      assert FloorBump(FloorBump(f, field, 1), field, -1) == f;
    }
    UpdateFirstUndone(t.floors, q, FloorInc(field, 1), FloorInc(field, -1));
  }
}
