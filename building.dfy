/** `BuildingService`: buildings belong to a site. Every operation first resolves the
    site through `SiteService.findOne`, then matches the building by id and by that
    site; creating or removing a building moves the site's `buildingCount`. */
module BuildingService {
  import opened Wrappers
  import opened Records
  import opened Collection
  import opened Counting
  import opened Pagination
  import opened Store
  import opened Cascade
  import SiteService

  const NotFoundMessage := "Building not found"

  /** `CreateBuildingDto`. */
  datatype CreateBuilding = CreateBuilding(name: string, description: Option<string>, address: Address)

  /** The update DTO's fields or the `{cover}` of the cover upload route. */
  datatype BuildingPatch = BuildingPatch(
    name: Option<string>, description: Option<string>, address: Option<Address>, cover: Option<Url>)

  /** The schema's defaults: every counter at zero, no cover. */
  function NewBuilding(id: Id, site: Id, dto: CreateBuilding): Building {
    Building(id, dto.name, dto.description, dto.address, 0, 0, 0, None, site)
  }

  /** An update never changes a building's key, site or counters. */
  function Patched(b: Building, patch: BuildingPatch): (r: Building)
    ensures r.id == b.id && r.site == b.site
    ensures r.floorCount == b.floorCount && r.deviceCount == b.deviceCount && r.pointsCount == b.pointsCount
    ensures patch == BuildingPatch(None, None, None, None) ==> r == b
  {
    b.(name := if patch.name.Some? then patch.name.value else b.name,
       description := if patch.description.Some? then patch.description else b.description,
       address := if patch.address.Some? then patch.address.value else b.address,
       cover := if patch.cover.Some? then patch.cover else b.cover)
  }

  // ---------------------------------------------------------------------------
  // Reads

  /** `findOne(siteId, id)`: the site must exist and the building must belong to it. */
  function FindOne(t: Tables, siteId: Id, id: Id): (r: Result<Building>)
    ensures r.Ok? ==> r.value in t.buildings && r.value.id == id && r.value.site == siteId
    ensures r.Err? <==>
      SiteService.FindOne(t, siteId).Err? || forall b :: b in t.buildings ==> !(b.id == id && b.site == siteId)
    ensures r.Err? ==>
      r.error == NotFound(if SiteService.FindOne(t, siteId).Err? then SiteService.NotFoundMessage else NotFoundMessage)
  {
    var site :- SiteService.FindOne(t, siteId);
    FindOr(t.buildings, BuildingScoped(id, site.id), NotFoundMessage)
  }

  /** `findAll(siteId, search, pagination)`: the optional name search, then the site's
      buildings only. */
  function FindAll(t: Tables, siteId: Id, search: Option<NameQuery>, options: Options): (r: Result<Page<Building>>)
    ensures r.Err? <==> SiteService.FindOne(t, siteId).Err?
    ensures r.Ok? ==> forall b :: b in r.value.results ==>
      b in t.buildings && b.site == siteId && (search.None? || search.value(b.name))
    ensures r.Ok? ==> r.value.pagination.totalResults == Count(t.buildings, BuildingNamed(search, siteId))
  {
    var site :- SiteService.FindOne(t, siteId);
    Ok(PaginatedAggregation(Where(t.buildings, BuildingNamed(search, site.id)), options))
  }

  // ---------------------------------------------------------------------------
  // What each change leaves behind

  /** The new building, linked to the resolved site, whose `buildingCount` is one up. */
  function Created(t: Tables, siteId: Id, dto: CreateBuilding): (r: (Tables, Result<Building>))
    ensures r.1.Err? <==> SiteService.FindOne(t, siteId).Err?
    ensures r.1.Err? ==> r == (t, Err(SiteService.FindOne(t, siteId).error))
    ensures r.1.Ok? ==> r.1.value == NewBuilding(t.nextId, siteId, dto)
    ensures r.1.Ok? ==> r.0.buildings == t.buildings + [r.1.value] && r.0.nextId == t.nextId + 1
    ensures r.0 == t.(sites := r.0.sites, buildings := r.0.buildings, nextId := r.0.nextId)
  {
    match SiteService.FindOne(t, siteId)
    case Err(e) => (t, Err(e))
    case Ok(site) =>
      var b := NewBuilding(t.nextId, site.id, dto);
      var u := t.(buildings := t.buildings + [b], nextId := t.nextId + 1);
      (SiteService.Bumped(u, site.id, BuildingCount, 1), Ok(b))
  }

  function Updated(t: Tables, siteId: Id, id: Id, patch: BuildingPatch): (r: (Tables, Result<Building>))
    ensures r.1.Err? <==> FindOne(t, siteId, id).Err?
    ensures r.1.Err? ==> r == (t, FindOne(t, siteId, id))
    ensures r.1.Ok? ==> r.1.value == Patched(FindOne(t, siteId, id).value, patch)
    ensures r.0 == t.(buildings := r.0.buildings)
  {
    match FindOne(t, siteId, id)
    case Err(e) => (t, Err(e))
    case Ok(b) =>
      var v := Patched(b, patch);
      (t.(buildings := ReplaceFirst(t.buildings, BuildingScoped(id, siteId), v)), Ok(v))
  }

  /** The building is gone, its site's `buildingCount` is one down, and everything on
      its floors is gone. */
  ghost function Removed(t: Tables, siteId: Id, id: Id): (r: (Tables, Result<Building>))
    ensures r.1 == FindOne(t, siteId, id)
    ensures r.1.Err? ==> r.0 == t
  {
    match FindOne(t, siteId, id)
    case Err(e) => (t, Err(e))
    case Ok(b) =>
      var u := t.(buildings := DeleteFirst(t.buildings, BuildingScoped(id, siteId)));
      (WithoutFloors(SiteService.Bumped(u, siteId, BuildingCount, -1), {id}), Ok(b))
  }

  /** `$inc: {[field]: delta}` on the building with that id, if any. */
  function Bumped(t: Tables, id: Id, field: CountField, delta: int): (r: Tables)
    ensures r == t.(buildings := r.buildings) && |r.buildings| == |t.buildings|
  {
    t.(buildings := UpdateFirst(t.buildings, BuildingWithId(id), BuildingInc(field, delta)))
  }

  // ---------------------------------------------------------------------------
  // The service

  /** `create(siteId, dto)`. */
  method Create(db: Database, siteId: Id, dto: CreateBuilding) returns (r: Result<Building>)
    modifies db
    ensures (db.State(), r) == Created(old(db.State()), siteId, dto)
    ensures db.deletedImages == old(db.deletedImages)
  {
    var found := SiteService.FindOne(db.State(), siteId);
    if found.Err? {
      return Err(found.error);
    }
    var site := found.value;
    var id := db.NewId();
    var b := NewBuilding(id, site.id, dto);
    db.buildings := db.buildings + [b];
    var _ := SiteService.IncreaseStats(db, site.id, BuildingCount);
    r := Ok(b);
  }

  /** `update(siteId, id, update)` with `{new: true}`. */
  method Update(db: Database, siteId: Id, id: Id, patch: BuildingPatch) returns (r: Result<Building>)
    modifies db
    ensures (db.State(), r) == Updated(old(db.State()), siteId, id, patch)
    ensures db.deletedImages == old(db.deletedImages)
  {
    var site := SiteService.FindOne(db.State(), siteId);
    if site.Err? {
      return Err(site.error);
    }
    var found := FindFirst(db.buildings, BuildingScoped(id, site.value.id));
    if found.None? {
      return Err(NotFound(NotFoundMessage));
    }
    var v := Patched(found.value, patch);
    db.buildings := ReplaceFirst(db.buildings, BuildingScoped(id, site.value.id), v);
    r := Ok(v);
  }

  /** `remove(siteId, id)`: delete the building, lower the site's `buildingCount`, delete
      the cover (set or not), then clear the building's floors. */
  method Remove(db: Database, siteId: Id, id: Id) returns (r: Result<Building>)
    modifies db
    ensures (db.State(), r) == Removed(old(db.State()), siteId, id)
    ensures r.Err? ==> db.deletedImages == old(db.deletedImages)
    ensures r.Ok? ==> db.deletedImages == old(db.deletedImages) + [r.value.cover] + BuildingFloorsLog(old(db.State()), id)
  {
    var site := SiteService.FindOne(db.State(), siteId);
    if site.Err? {
      return Err(site.error);
    }
    var found := FindFirst(db.buildings, BuildingScoped(id, site.value.id));
    if found.None? {
      return Err(NotFound(NotFoundMessage));
    }
    var building := found.value;
    db.buildings := DeleteFirst(db.buildings, BuildingScoped(id, site.value.id));
    var _ := SiteService.DecreaseStats(db, site.value.id, BuildingCount);
    db.DeleteImage(building.cover);
    RemoveBuildingFloors(db, site.value.id, building.id);
    r := Ok(building);
  }

  /** `increaseStats(id, field)`; the result is the building before the increment. */
  method IncreaseStats(db: Database, id: Id, field: CountField) returns (before: Option<Building>)
    modifies db
    ensures before == FindFirst(old(db.buildings), BuildingWithId(id))
    ensures db.State() == Bumped(old(db.State()), id, field, 1)
    ensures db.deletedImages == old(db.deletedImages)
  {
    before := FindFirst(db.buildings, BuildingWithId(id));
    db.buildings := UpdateFirst(db.buildings, BuildingWithId(id), BuildingInc(field, 1));
  }

  /** `decreaseStats(id, field)`. */
  method DecreaseStats(db: Database, id: Id, field: CountField) returns (before: Option<Building>)
    modifies db
    ensures before == FindFirst(old(db.buildings), BuildingWithId(id))
    ensures db.State() == Bumped(old(db.State()), id, field, -1)
    ensures db.deletedImages == old(db.deletedImages)
  {
    before := FindFirst(db.buildings, BuildingWithId(id));
    db.buildings := UpdateFirst(db.buildings, BuildingWithId(id), BuildingInc(field, -1));
  }

  // ---------------------------------------------------------------------------
  // Properties

  /** Creating a building keeps the store consistent and every counter exact: the one
      raised is the site's, and the new building has no floors yet. */
  lemma CreatedKeeps(t: Tables, siteId: Id, dto: CreateBuilding)
    requires Consistent(t)
    ensures Consistent(Created(t, siteId, dto).0)
    ensures CountersExact(t) ==> CountersExact(Created(t, siteId, dto).0)
  {
    if SiteService.FindOne(t, siteId).Ok? {
      var site := SiteService.FindOne(t, siteId).value;
      var b := NewBuilding(t.nextId, site.id, dto);
      var q := SiteWithId(site.id);
      KeyedAppend(t.buildings, BuildingKey, t.nextId, b);
      KeyedUpdate(t.sites, SiteKey, t.nextId + 1, q, SiteInc(BuildingCount, 1));
      if CountersExact(t) {
        FindByKey(t.sites, SiteKey, q, site);
        ExactAfterChildAdded(t.sites, SiteKey, SiteBuildingCount, t.buildings, BuildingSite, b, q,
                             SiteBump(site, BuildingCount, 1));
        ExactAfterParentAdded(t.buildings, BuildingKey, BuildingFloorCount, t.floors, FloorBuilding, b);
      }
    }
  }

  /** After a create the building is found under its site, and the site's
      `buildingCount` is exactly one higher, its other fields unchanged. */
  lemma CreatedIsFound(t: Tables, siteId: Id, dto: CreateBuilding)
    requires Consistent(t) && SiteService.FindOne(t, siteId).Ok?
    ensures var r := Created(t, siteId, dto);
      var site := SiteService.FindOne(t, siteId).value;
      && FindOne(r.0, siteId, t.nextId) == r.1
      && SiteService.FindOne(r.0, siteId) == Ok(site.(buildingCount := site.buildingCount + 1))
  {
    var site := SiteService.FindOne(t, siteId).value;
    var b := NewBuilding(t.nextId, site.id, dto);
    var u := t.(buildings := t.buildings + [b], nextId := t.nextId + 1);
    SiteService.BumpedOneField(u, siteId, BuildingCount, 1, siteId);
    FindAppended(t.buildings, b, BuildingScoped(t.nextId, siteId));
  }

  lemma UpdatedKeeps(t: Tables, siteId: Id, id: Id, patch: BuildingPatch)
    requires Consistent(t)
    ensures Consistent(Updated(t, siteId, id, patch).0)
    ensures CountersExact(t) ==> CountersExact(Updated(t, siteId, id, patch).0)
  {
    if FindOne(t, siteId, id).Ok? {
      var b := FindOne(t, siteId, id).value;
      var v := Patched(b, patch);
      var q := BuildingScoped(id, siteId);
      KeyedUpdate(t.buildings, BuildingKey, t.nextId, q, (x: Building) => v);
      RefsUpdate(t.buildings, BuildingSite, t.nextId, q, (x: Building) => v);
      if CountersExact(t) {
        ExactAfterChildReplaced(t.sites, SiteKey, SiteBuildingCount, t.buildings, BuildingSite, q, v);
        ExactAfterParentReplaced(t.buildings, BuildingKey, BuildingFloorCount, t.floors, FloorBuilding, q, v);
      }
    }
  }

  /** After an update the building is found as the update returned it; other buildings
      are unaffected. */
  lemma UpdatedIsFound(t: Tables, siteId: Id, id: Id, patch: BuildingPatch, id': Id)
    ensures Updated(t, siteId, id, patch).1.Ok? ==>
      FindOne(Updated(t, siteId, id, patch).0, siteId, id) == Updated(t, siteId, id, patch).1
    ensures id' != id ==> FindOne(Updated(t, siteId, id, patch).0, siteId, id') == FindOne(t, siteId, id')
  {
    if FindOne(t, siteId, id).Ok? {
      var v := Patched(FindOne(t, siteId, id).value, patch);
      FindReplaced(t.buildings, BuildingScoped(id, siteId), v);
      if id' != id {
        FindAfterReplace(t.buildings, BuildingScoped(id, siteId), v, BuildingScoped(id', siteId));
      }
    }
  }

  lemma RemovedKeeps(t: Tables, siteId: Id, id: Id)
    requires Consistent(t)
    ensures Consistent(Removed(t, siteId, id).0)
    ensures CountersExact(t) ==> CountersExact(Removed(t, siteId, id).0)
  {
    if FindOne(t, siteId, id).Ok? {
      var b := FindOne(t, siteId, id).value;
      var site := SiteService.FindOne(t, siteId).value;
      var qb := BuildingScoped(id, siteId);
      var qs := SiteWithId(siteId);
      var u := t.(buildings := DeleteFirst(t.buildings, qb));
      var v := SiteService.Bumped(u, siteId, BuildingCount, -1);
      KeyedDeleteFirst(t.buildings, BuildingKey, t.nextId, qb);
      RefsDeleteFirst(t.buildings, BuildingSite, t.nextId, qb);
      KeyedUpdate(t.sites, SiteKey, t.nextId, qs, SiteInc(BuildingCount, -1));
      assert Consistent(v);
      ConsistentWithoutFloors(v, {id});
      if CountersExact(t) {
        FindByKey(t.sites, SiteKey, qs, site);
        ExactAfterChildRemoved(t.sites, SiteKey, SiteBuildingCount, t.buildings, BuildingSite, qb, qs,
                               SiteBump(site, BuildingCount, -1));
        forall x | x in u.buildings ensures x in t.buildings {
          InDeleteFirst(t.buildings, qb, x);
        }
        ExactOnFewerParents(t.buildings, u.buildings, BuildingKey, BuildingFloorCount, t.floors, FloorBuilding);
        UniqueDeleteFirstGone(t.buildings, BuildingKey, qb);
        CountersWithoutFloors(v, {id});
      }
    }
  }

  /** A removal lowers the site's `buildingCount` by one and changes none of its other
      fields: the site's `deviceCount` stays as it was although the devices on the
      building's floors are deleted. The building is not found afterwards, and exactly
      the floors of it, their rooms and those rooms' devices are gone. */
  lemma RemovedExactly(t: Tables, siteId: Id, id: Id, other: Id)
    requires Consistent(t) && FindOne(t, siteId, id).Ok?
    ensures var r := Removed(t, siteId, id).0;
      var site := SiteService.FindOne(t, siteId).value;
      var fs := FloorsOn(t, {id});
      var rs := RoomsOn(t, fs);
      && SiteService.FindOne(r, siteId) == Ok(site.(buildingCount := site.buildingCount - 1))
      && (other != siteId ==> SiteService.FindOne(r, other) == SiteService.FindOne(t, other))
      && FindOne(r, siteId, id).Err?
      && r.users == t.users && r.organizations == t.organizations && r.events == t.events
      && (forall b :: b in r.buildings <==> b in t.buildings && b.id != id)
      && (forall f :: f in r.floors <==> f in t.floors && f.building != id)
      && (forall x :: x in r.rooms <==> x in t.rooms && x.floor !in fs)
      && (forall d :: d in r.devices <==> d in t.devices && d.room !in rs)
  {
    var qb := BuildingScoped(id, siteId);
    var u := t.(buildings := DeleteFirst(t.buildings, qb));
    var v := SiteService.Bumped(u, siteId, BuildingCount, -1);
    SiteService.BumpedOneField(u, siteId, BuildingCount, -1, other);
    InDeleteFirstIff(t.buildings, BuildingKey, qb);
    WithoutFloorsExactly(v, {id});
    assert FloorsOn(v, {id}) == FloorsOn(t, {id});
  }

  lemma BumpedKeeps(t: Tables, id: Id, field: CountField, delta: int)
    requires Consistent(t)
    ensures Consistent(Bumped(t, id, field, delta))
    ensures CountersExact(t) && field != FloorCount ==> CountersExact(Bumped(t, id, field, delta))
  {
    var q := BuildingWithId(id);
    KeyedUpdate(t.buildings, BuildingKey, t.nextId, q, BuildingInc(field, delta));
    RefsUpdate(t.buildings, BuildingSite, t.nextId, q, BuildingInc(field, delta));
    if FindFirst(t.buildings, q).Some? && CountersExact(t) && field != FloorCount {
      var b := FindFirst(t.buildings, q).value;
      ExactAfterChildReplaced(t.sites, SiteKey, SiteBuildingCount, t.buildings, BuildingSite, q,
                              BuildingBump(b, field, delta));
      ExactAfterParentReplaced(t.buildings, BuildingKey, BuildingFloorCount, t.floors, FloorBuilding, q,
                               BuildingBump(b, field, delta));
    }
  }

  /** `$inc` changes the named counter of the named building by `delta`; other
      buildings are unaffected. */
  lemma BumpedOneField(t: Tables, id: Id, field: CountField, delta: int, id': Id)
    ensures FindFirst(Bumped(t, id, field, delta).buildings, BuildingWithId(id)) ==
      match FindFirst(t.buildings, BuildingWithId(id))
      case Some(b) => Some(BuildingBump(b, field, delta))
      case None => None
    ensures id' != id ==>
      FindFirst(Bumped(t, id, field, delta).buildings, BuildingWithId(id')) == FindFirst(t.buildings, BuildingWithId(id'))
  {
    var q := BuildingWithId(id);
    if FindFirst(t.buildings, q).Some? {
      var b := FindFirst(t.buildings, q).value;
      FindReplaced(t.buildings, q, BuildingBump(b, field, delta));
      if id' != id {
        FindAfterReplace(t.buildings, q, BuildingBump(b, field, delta), BuildingWithId(id'));
      }
    }
  }

  /** `decreaseStats` undoes `increaseStats`. */
  lemma BumpedRoundTrip(t: Tables, id: Id, field: CountField)
    ensures Bumped(Bumped(t, id, field, 1), id, field, -1) == t
  {
    var q := BuildingWithId(id);
    if FindFirst(t.buildings, q).Some? {
      var b := FindFirst(t.buildings, q).value;
      assert BuildingBump(BuildingBump(b, field, 1), field, -1) == b;
    }
    UpdateFirstUndone(t.buildings, q, BuildingInc(field, 1), BuildingInc(field, -1));
  }
}
