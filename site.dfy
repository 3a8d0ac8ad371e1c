/** `SiteService`: sites are the root of the facility hierarchy. Any caller may read or
    change any site by id; removing one removes everything beneath it. */
module SiteService {
  import opened Wrappers
  import opened Records
  import opened Collection
  import opened Counting
  import opened Pagination
  import opened Store
  import opened Cascade

  const NotFoundMessage := "Site not found"

  /** `CreateSiteDto`. */
  datatype CreateSite = CreateSite(name: string, description: Option<string>, location: Location, address: Address)

  /** The update a caller may send: the update DTO's fields or the `{cover}` of the cover
      upload route. */
  datatype SitePatch = SitePatch(
    name: Option<string>, description: Option<string>, location: Option<Location>,
    address: Option<Address>, cover: Option<Url>)

  /** The schema's defaults: both counters start at zero, no cover. */
  function NewSite(id: Id, dto: CreateSite): Site {
    Site(id, dto.name, dto.description, dto.location, dto.address, 0, 0, None)
  }

  /** An update never changes a site's key or counters. */
  function Patched(s: Site, patch: SitePatch): (r: Site)
    ensures r.id == s.id && r.buildingCount == s.buildingCount && r.deviceCount == s.deviceCount
    ensures patch == SitePatch(None, None, None, None, None) ==> r == s
  {
    s.(name := if patch.name.Some? then patch.name.value else s.name,
       description := if patch.description.Some? then patch.description else s.description,
       location := if patch.location.Some? then patch.location.value else s.location,
       address := if patch.address.Some? then patch.address.value else s.address,
       cover := if patch.cover.Some? then patch.cover else s.cover)
  }

  /** The images `remove` deletes for the site itself: its cover, only when set. */
  function OwnImages(s: Site): seq<Option<Url>> {
    if s.cover.Some? then [s.cover] else []
  }

  // ---------------------------------------------------------------------------
  // Reads

  /** `findOne(id)`: a plain lookup by id, with no ownership check. */
  function FindOne(t: Tables, id: Id): (r: Result<Site>)
    ensures r.Ok? ==> r.value in t.sites && r.value.id == id
    ensures r.Err? <==> forall s :: s in t.sites ==> s.id != id
    ensures r.Err? ==> r.error == NotFound(NotFoundMessage)
  {
    FindOr(t.sites, SiteWithId(id), NotFoundMessage)
  }

  /** `findAll(search, pagination)`: the optional name search, then a page of the
      matching sites. */
  function FindAll(t: Tables, search: Option<NameQuery>, options: Options): (r: Page<Site>)
    ensures forall s :: s in r.results ==> s in t.sites && (search.None? || search.value(s.name))
    ensures r.pagination.totalResults == Count(t.sites, SiteNamed(search))
    ensures search.None? ==> r.pagination.totalResults == |t.sites|
  {
    var matching := Where(t.sites, SiteNamed(search));
    var r := PaginatedAggregation(matching, options);
    if search.None? then
      WhereAll(t.sites, SiteNamed(search));
      r
    else r
  }

  // ---------------------------------------------------------------------------
  // What each change leaves behind

  function Created(t: Tables, dto: CreateSite): (r: Tables)
    ensures r == t.(sites := r.sites, nextId := t.nextId + 1)
    ensures r.sites == t.sites + [NewSite(t.nextId, dto)]
  {
    t.(sites := t.sites + [NewSite(t.nextId, dto)], nextId := t.nextId + 1)
  }

  function Updated(t: Tables, id: Id, patch: SitePatch): (r: (Tables, Result<Site>))
    ensures r.1.Err? <==> FindOne(t, id).Err?
    ensures r.1.Err? ==> r == (t, FindOne(t, id))
    ensures r.1.Ok? ==> r.1.value == Patched(FindOne(t, id).value, patch)
    ensures r.0 == t.(sites := r.0.sites)
  {
    match FindOne(t, id)
    case Err(e) => (t, Err(e))
    case Ok(s) =>
      var v := Patched(s, patch);
      (t.(sites := ReplaceFirst(t.sites, SiteWithId(id), v)), Ok(v))
  }

  /** The site is gone, and so is every building of it, with everything beneath. */
  ghost function Removed(t: Tables, id: Id): (r: (Tables, Result<Site>))
    ensures r.1 == FindOne(t, id)
    ensures r.1.Err? ==> r.0 == t
  {
    match FindOne(t, id)
    case Err(e) => (t, Err(e))
    case Ok(s) => (WithoutBuildings(t.(sites := DeleteFirst(t.sites, SiteWithId(id))), {id}), Ok(s))
  }

  /** `$inc: {[field]: delta}` on the site with that id, if any. */
  function Bumped(t: Tables, id: Id, field: CountField, delta: int): (r: Tables)
    ensures r == t.(sites := r.sites) && |r.sites| == |t.sites|
  {
    t.(sites := UpdateFirst(t.sites, SiteWithId(id), SiteInc(field, delta)))
  }

  // ---------------------------------------------------------------------------
  // The service

  /** `create(dto)`: inserts the site; no counter anywhere changes. */
  method Create(db: Database, dto: CreateSite) returns (s: Site)
    modifies db
    ensures s == NewSite(old(db.nextId), dto)
    ensures db.State() == Created(old(db.State()), dto)
    ensures db.deletedImages == old(db.deletedImages)
  {
    var id := db.NewId();
    s := NewSite(id, dto);
    db.sites := db.sites + [s];
  }

  /** `update(id, update)` with `{new: true}`. */
  method Update(db: Database, id: Id, patch: SitePatch) returns (r: Result<Site>)
    modifies db
    ensures (db.State(), r) == Updated(old(db.State()), id, patch)
    ensures db.deletedImages == old(db.deletedImages)
  {
    var found := FindFirst(db.sites, SiteWithId(id));
    if found.None? {
      return Err(NotFound(NotFoundMessage));
    }
    var v := Patched(found.value, patch);
    db.sites := ReplaceFirst(db.sites, SiteWithId(id), v);
    r := Ok(v);
  }

  /** `remove(id)`: delete the site, clear its buildings, then delete its cover if set. */
  method Remove(db: Database, id: Id) returns (r: Result<Site>)
    modifies db
    ensures (db.State(), r) == Removed(old(db.State()), id)
    ensures r.Err? ==> db.deletedImages == old(db.deletedImages)
    ensures r.Ok? ==> var rest := old(db.State()).(sites := DeleteFirst(old(db.sites), SiteWithId(id)));
      db.deletedImages == old(db.deletedImages) + SiteBuildingsLog(rest, id) + OwnImages(r.value)
  {
    var found := FindFirst(db.sites, SiteWithId(id));
    if found.None? {
      return Err(NotFound(NotFoundMessage));
    }
    var site := found.value;
    db.sites := DeleteFirst(db.sites, SiteWithId(id));
    ghost var rest := db.State();
    RemoveSiteBuildings(db, site.id);
    ghost var mid := db.deletedImages;
    if site.cover.Some? {
      db.DeleteImage(site.cover);
    }
    LogGrows(old(db.deletedImages), mid, SiteBuildingsLog(rest, id), OwnImages(site));
    r := Ok(site);
  }

  /** `increaseStats(id, field)`: `findByIdAndUpdate` without `{new: true}`, so the
      result is the site as it was before the increment. */
  method IncreaseStats(db: Database, id: Id, field: CountField) returns (before: Option<Site>)
    modifies db
    ensures before == FindFirst(old(db.sites), SiteWithId(id))
    ensures db.State() == Bumped(old(db.State()), id, field, 1)
    ensures db.deletedImages == old(db.deletedImages)
  {
    before := FindFirst(db.sites, SiteWithId(id));
    db.sites := UpdateFirst(db.sites, SiteWithId(id), SiteInc(field, 1));
  }

  /** `decreaseStats(id, field)`. */
  method DecreaseStats(db: Database, id: Id, field: CountField) returns (before: Option<Site>)
    modifies db
    ensures before == FindFirst(old(db.sites), SiteWithId(id))
    ensures db.State() == Bumped(old(db.State()), id, field, -1)
    ensures db.deletedImages == old(db.deletedImages)
  {
    before := FindFirst(db.sites, SiteWithId(id));
    db.sites := UpdateFirst(db.sites, SiteWithId(id), SiteInc(field, -1));
  }

  // ---------------------------------------------------------------------------
  // Properties

  lemma CreatedKeeps(t: Tables, dto: CreateSite)
    requires Consistent(t)
    ensures Consistent(Created(t, dto))
    ensures CountersExact(t) ==> CountersExact(Created(t, dto))
  {
    var s := NewSite(t.nextId, dto);
    KeyedAppend(t.sites, SiteKey, t.nextId, s);
    if CountersExact(t) {
      ExactAfterParentAdded(t.sites, SiteKey, SiteBuildingCount, t.buildings, BuildingSite, s);
    }
  }

  /** The new site is found under its fresh id, and every other lookup is unaffected. */
  lemma CreatedIsFound(t: Tables, dto: CreateSite, id: Id)
    requires Consistent(t)
    ensures FindOne(Created(t, dto), t.nextId) == Ok(NewSite(t.nextId, dto))
    ensures id != t.nextId ==> FindOne(Created(t, dto), id) == FindOne(t, id)
  {
    FindAppended(t.sites, NewSite(t.nextId, dto), SiteWithId(t.nextId));
    if id != t.nextId {
      FindAfterAppend(t.sites, NewSite(t.nextId, dto), SiteWithId(id));
    }
  }

  lemma UpdatedKeeps(t: Tables, id: Id, patch: SitePatch)
    requires Consistent(t)
    ensures Consistent(Updated(t, id, patch).0)
    ensures CountersExact(t) ==> CountersExact(Updated(t, id, patch).0)
  {
    if FindOne(t, id).Ok? {
      var v := Patched(FindOne(t, id).value, patch);
      KeyedUpdate(t.sites, SiteKey, t.nextId, SiteWithId(id), (x: Site) => v);
      if CountersExact(t) {
        ExactAfterParentReplaced(t.sites, SiteKey, SiteBuildingCount, t.buildings, BuildingSite, SiteWithId(id), v);
      }
    }
  }

  /** After an update the site is found as the update returned it; other sites are
      unaffected. */
  lemma UpdatedIsFound(t: Tables, id: Id, patch: SitePatch, id': Id)
    ensures Updated(t, id, patch).1.Ok? ==> FindOne(Updated(t, id, patch).0, id) == Updated(t, id, patch).1
    ensures id' != id ==> FindOne(Updated(t, id, patch).0, id') == FindOne(t, id')
  {
    if FindOne(t, id).Ok? {
      var v := Patched(FindOne(t, id).value, patch);
      FindReplaced(t.sites, SiteWithId(id), v);
      if id' != id {
        FindAfterReplace(t.sites, SiteWithId(id), v, SiteWithId(id'));
      }
    }
  }

  lemma RemovedKeeps(t: Tables, id: Id)
    requires Consistent(t)
    ensures Consistent(Removed(t, id).0)
    ensures CountersExact(t) ==> CountersExact(Removed(t, id).0)
  {
    if FindOne(t, id).Ok? {
      var u := t.(sites := DeleteFirst(t.sites, SiteWithId(id)));
      KeyedDeleteFirst(t.sites, SiteKey, t.nextId, SiteWithId(id));
      ConsistentWithoutBuildings(u, {id});
      if CountersExact(t) {
        forall s | s in u.sites ensures s in t.sites {
          InDeleteFirst(t.sites, SiteWithId(id), s);
        }
        ExactOnFewerParents(t.sites, u.sites, SiteKey, SiteBuildingCount, t.buildings, BuildingSite);
        UniqueDeleteFirstGone(t.sites, SiteKey, SiteWithId(id));
        CountersWithoutBuildings(u, {id});
      }
    }
  }

  /** After a removal the site is not found, and neither is anything beneath it: no
      building of it, no floor of those buildings, no room of those floors, no device
      of those rooms is left. Every other site and every other document is kept. */
  lemma RemovedExactly(t: Tables, id: Id, id': Id)
    requires Consistent(t) && FindOne(t, id).Ok?
    ensures var r := Removed(t, id).0;
      var bs := BuildingsOn(t, {id});
      var fs := FloorsOn(t, bs);
      var rs := RoomsOn(t, fs);
      && FindOne(r, id).Err?
      && (id' != id ==> FindOne(r, id') == FindOne(t, id'))
      && r.users == t.users && r.organizations == t.organizations && r.events == t.events
      && (forall b :: b in r.buildings <==> b in t.buildings && b.site != id)
      && (forall f :: f in r.floors <==> f in t.floors && f.building !in bs)
      && (forall x :: x in r.rooms <==> x in t.rooms && x.floor !in fs)
      && (forall d :: d in r.devices <==> d in t.devices && d.room !in rs)
  {
    var u := t.(sites := DeleteFirst(t.sites, SiteWithId(id)));
    UniqueDeleteFirstGone(t.sites, SiteKey, SiteWithId(id));
    if id' != id {
      FindAfterDelete(t.sites, SiteWithId(id), SiteWithId(id'));
    }
    WithoutBuildingsExactly(u, {id});
    assert BuildingsOn(u, {id}) == BuildingsOn(t, {id});
  }

  lemma BumpedKeeps(t: Tables, id: Id, field: CountField, delta: int)
    requires Consistent(t)
    ensures Consistent(Bumped(t, id, field, delta))
    ensures CountersExact(t) && field != BuildingCount ==> CountersExact(Bumped(t, id, field, delta))
  {
    KeyedUpdate(t.sites, SiteKey, t.nextId, SiteWithId(id), SiteInc(field, delta));
    if FindOne(t, id).Ok? && CountersExact(t) && field != BuildingCount {
      var s := FindOne(t, id).value;
      ExactAfterParentReplaced(t.sites, SiteKey, SiteBuildingCount, t.buildings, BuildingSite,
                               SiteWithId(id), SiteBump(s, field, delta));
    }
  }

  /** `$inc` changes the named counter of the named site by `delta` and nothing else;
      other sites are unaffected. */
  lemma BumpedOneField(t: Tables, id: Id, field: CountField, delta: int, id': Id)
    ensures FindOne(Bumped(t, id, field, delta), id) ==
      match FindOne(t, id)
      case Ok(s) => Ok(SiteBump(s, field, delta))
      case Err(e) => Err(e)
    ensures id' != id ==> FindOne(Bumped(t, id, field, delta), id') == FindOne(t, id')
  {
    if FindOne(t, id).Ok? {
      var s := FindOne(t, id).value;
      FindReplaced(t.sites, SiteWithId(id), SiteBump(s, field, delta));
    }
    if id' != id {
      BumpedOther(t, id, field, delta, id');
    }
  }

  lemma BumpedOther(t: Tables, id: Id, field: CountField, delta: int, id': Id)
    requires id' != id
    ensures FindOne(Bumped(t, id, field, delta), id') == FindOne(t, id')
  {
    var q := SiteWithId(id);
    var after := Bumped(t, id, field, delta).sites;
    if FindFirst(t.sites, q).Some? {
      var s := FindFirst(t.sites, q).value;
      assert after == ReplaceFirst(t.sites, q, SiteBump(s, field, delta));
      FindAfterReplace(t.sites, q, SiteBump(s, field, delta), SiteWithId(id'));
    }
    assert FindFirst(after, SiteWithId(id')) == FindFirst(t.sites, SiteWithId(id'));
  }

  /** `decreaseStats` undoes `increaseStats`. */
  lemma BumpedRoundTrip(t: Tables, id: Id, field: CountField)
    ensures Bumped(Bumped(t, id, field, 1), id, field, -1) == t
  {
    var q := SiteWithId(id);
    if FindFirst(t.sites, q).Some? {
      var s := FindFirst(t.sites, q).value;
      assert SiteBump(SiteBump(s, field, 1), field, -1) == s;
    }
    UpdateFirstUndone(t.sites, q, SiteInc(field, 1), SiteInc(field, -1));
  }
}
