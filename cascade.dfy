/** The bulk helpers a `remove` drives down the hierarchy:
    `BuildingService.removeSiteBuildings`, `FloorService.removeBuildingFloors`,
    `RoomService.removeFloorRooms` and `DeviceService.removeRoomDevices`. Each one
    finds the children of its argument, bulk-deletes them, runs the next helper for
    every child found, then deletes the images that are set. None of them touches a
    counter. The `Promise.all` fan-outs run here one child after another; the children
    they touch are disjoint. */
module Cascade {
  import opened Wrappers
  import opened Records
  import opened Collection
  import opened Counting
  import opened Store

  // ---------------------------------------------------------------------------
  // What a cascade leaves behind

  /** Ids of the rooms on the given floors. */
  ghost function RoomsOn(t: Tables, floors: set<Id>): set<Id> {
    KeysWhere(t.rooms, RoomKey, RoomFloor, floors)
  }

  ghost function FloorsOn(t: Tables, buildings: set<Id>): set<Id> {
    KeysWhere(t.floors, FloorKey, FloorBuilding, buildings)
  }

  ghost function BuildingsOn(t: Tables, sites: set<Id>): set<Id> {
    KeysWhere(t.buildings, BuildingKey, BuildingSite, sites)
  }

  /** The rooms on the given floors are gone, and so are their devices. */
  ghost function WithoutRooms(t: Tables, floors: set<Id>): (r: Tables)
    ensures r == t.(rooms := r.rooms, devices := r.devices)
    ensures |r.rooms| <= |t.rooms| && |r.devices| <= |t.devices|
  {
    t.(rooms := DeleteMany(t.rooms, RoomIn(floors)),
       devices := DeleteMany(t.devices, DeviceIn(RoomsOn(t, floors))))
  }

  /** The floors of the given buildings are gone, with everything on them. */
  ghost function WithoutFloors(t: Tables, buildings: set<Id>): (r: Tables)
    ensures r == t.(floors := r.floors, rooms := r.rooms, devices := r.devices)
    ensures |r.floors| <= |t.floors| && |r.rooms| <= |t.rooms| && |r.devices| <= |t.devices|
  {
    WithoutRooms(t.(floors := DeleteMany(t.floors, FloorIn(buildings))), FloorsOn(t, buildings))
  }

  /** The buildings of the given sites are gone, with everything in them. */
  ghost function WithoutBuildings(t: Tables, sites: set<Id>): (r: Tables)
    ensures r == t.(buildings := r.buildings, floors := r.floors, rooms := r.rooms, devices := r.devices)
    ensures |r.buildings| <= |t.buildings| && |r.floors| <= |t.floors|
    ensures |r.rooms| <= |t.rooms| && |r.devices| <= |t.devices|
  {
    WithoutFloors(t.(buildings := DeleteMany(t.buildings, BuildingIn(sites))), BuildingsOn(t, sites))
  }

  lemma WithoutRoomsNothing(t: Tables)
    ensures WithoutRooms(t, {}) == t
  {
    DeleteManyNothing(t.rooms, RoomIn({}));
    DeleteManyNothing(t.devices, DeviceIn(RoomsOn(t, {})));
  }

  lemma WithoutFloorsNothing(t: Tables)
    ensures WithoutFloors(t, {}) == t
  {
    DeleteManyNothing(t.floors, FloorIn({}));
    assert FloorsOn(t, {}) == {};
    WithoutRoomsNothing(t);
  }

  /** Clearing the floors of `a`, then those of `b`, clears the floors of `a + b`. */
  lemma WithoutRoomsTwice(t: Tables, a: set<Id>, b: set<Id>)
    ensures WithoutRooms(WithoutRooms(t, a), b) == WithoutRooms(t, a + b)
  {
    DeleteManyTwice(t.rooms, RoomIn(a), RoomIn(b), RoomIn(a + b));
    KeysWhereAfterDelete(t.rooms, RoomKey, RoomFloor, RoomIn(a), a, b);
    DeleteManyTwice(t.devices, DeviceIn(RoomsOn(t, a)), DeviceIn(RoomsOn(WithoutRooms(t, a), b)),
                    DeviceIn(RoomsOn(t, a + b)));
  }

  /** Clearing the buildings of `a`, then those of `b`, clears the buildings of `a + b`. */
  lemma WithoutFloorsTwice(t: Tables, a: set<Id>, b: set<Id>)
    ensures WithoutFloors(WithoutFloors(t, a), b) == WithoutFloors(t, a + b)
  {
    var fa := FloorsOn(t, a);
    var u := t.(floors := DeleteMany(t.floors, FloorIn(a)));
    var x := DeleteMany(u.floors, FloorIn(b));
    DeleteManyTwice(t.floors, FloorIn(a), FloorIn(b), FloorIn(a + b));
    KeysWhereAfterDelete(t.floors, FloorKey, FloorBuilding, FloorIn(a), a, b);
    var fb := FloorsOn(WithoutFloors(t, a), b);
    assert fa + fb == FloorsOn(t, a + b);
    assert WithoutFloors(t, a).(floors := x) == WithoutRooms(t.(floors := x), fa);
    WithoutRoomsTwice(t.(floors := x), fa, fb);
  }

  /** Clearing the rooms of `floors` deletes exactly those rooms and their devices. */
  lemma WithoutRoomsExactly(t: Tables, floors: set<Id>)
    ensures var r := WithoutRooms(t, floors);
      var rs := RoomsOn(t, floors);
      && r == t.(rooms := r.rooms, devices := r.devices)
      && (forall x :: x in r.rooms ==> x in t.rooms && x.floor !in floors)
      && (forall x :: x in t.rooms && x.floor !in floors ==> x in r.rooms)
      && (forall d :: d in r.devices ==> d in t.devices && d.room !in rs)
      && (forall d :: d in t.devices && d.room !in rs ==> d in r.devices)
  {
  }

  /** Clearing the floors of `buildings` deletes exactly what lies on those floors. */
  lemma WithoutFloorsExactly(t: Tables, buildings: set<Id>)
    ensures var r := WithoutFloors(t, buildings);
      var fs := FloorsOn(t, buildings);
      var rs := RoomsOn(t, fs);
      && r == t.(floors := r.floors, rooms := r.rooms, devices := r.devices)
      && (forall f :: f in r.floors ==> f in t.floors && f.building !in buildings)
      && (forall f :: f in t.floors && f.building !in buildings ==> f in r.floors)
      && (forall x :: x in r.rooms ==> x in t.rooms && x.floor !in fs)
      && (forall x :: x in t.rooms && x.floor !in fs ==> x in r.rooms)
      && (forall d :: d in r.devices ==> d in t.devices && d.room !in rs)
      && (forall d :: d in t.devices && d.room !in rs ==> d in r.devices)
  {
    var u := t.(floors := DeleteMany(t.floors, FloorIn(buildings)));
    assert RoomsOn(u, FloorsOn(t, buildings)) == RoomsOn(t, FloorsOn(t, buildings));
  }

  /** Clearing the buildings of `sites` deletes exactly what lies beneath those sites,
      following the parent references down, and keeps every other document as it was. */
  lemma WithoutBuildingsExactly(t: Tables, sites: set<Id>)
    ensures var r := WithoutBuildings(t, sites);
      var bs := BuildingsOn(t, sites);
      var fs := FloorsOn(t, bs);
      var rs := RoomsOn(t, fs);
      && r == t.(buildings := r.buildings, floors := r.floors, rooms := r.rooms, devices := r.devices)
      && (forall b :: b in r.buildings ==> b in t.buildings && b.site !in sites)
      && (forall b :: b in t.buildings && b.site !in sites ==> b in r.buildings)
      && (forall f :: f in r.floors ==> f in t.floors && f.building !in bs)
      && (forall f :: f in t.floors && f.building !in bs ==> f in r.floors)
      && (forall x :: x in r.rooms ==> x in t.rooms && x.floor !in fs)
      && (forall x :: x in t.rooms && x.floor !in fs ==> x in r.rooms)
      && (forall d :: d in r.devices ==> d in t.devices && d.room !in rs)
      && (forall d :: d in t.devices && d.room !in rs ==> d in r.devices)
  {
    var u := t.(buildings := DeleteMany(t.buildings, BuildingIn(sites)));
    var bs := BuildingsOn(t, sites);
    var v := u.(floors := DeleteMany(u.floors, FloorIn(bs)));
    assert FloorsOn(u, bs) == FloorsOn(t, bs);
    assert RoomsOn(v, FloorsOn(t, bs)) == RoomsOn(t, FloorsOn(t, bs));
  }

  // ---------------------------------------------------------------------------
  // A cascade keeps the store invariants

  lemma ConsistentWithoutRooms(t: Tables, floors: set<Id>)
    requires Consistent(t)
    ensures Consistent(WithoutRooms(t, floors))
  {
    KeyedDeleteMany(t.rooms, RoomKey, t.nextId, RoomIn(floors));
    KeyedDeleteMany(t.devices, DeviceKey, t.nextId, DeviceIn(RoomsOn(t, floors)));
  }

  lemma ConsistentWithoutFloors(t: Tables, buildings: set<Id>)
    requires Consistent(t)
    ensures Consistent(WithoutFloors(t, buildings))
  {
    KeyedDeleteMany(t.floors, FloorKey, t.nextId, FloorIn(buildings));
    ConsistentWithoutRooms(t.(floors := DeleteMany(t.floors, FloorIn(buildings))), FloorsOn(t, buildings));
  }

  lemma ConsistentWithoutBuildings(t: Tables, sites: set<Id>)
    requires Consistent(t)
    ensures Consistent(WithoutBuildings(t, sites))
  {
    KeyedDeleteMany(t.buildings, BuildingKey, t.nextId, BuildingIn(sites));
    ConsistentWithoutFloors(t.(buildings := DeleteMany(t.buildings, BuildingIn(sites))), BuildingsOn(t, sites));
  }

  /** Clearing the rooms of floors that are already gone leaves every counter exact:
      no floor left counted them, and no room left owned the devices removed with them. */
  lemma CountersWithoutRooms(t: Tables, floors: set<Id>)
    requires Consistent(t) && CountersExact(t)
    requires forall f :: f in t.floors ==> f.id !in floors
    ensures CountersExact(WithoutRooms(t, floors))
  {
    var r := WithoutRooms(t, floors);
    ExactAfterOrphansDeleted(t.floors, FloorKey, FloorRoomCount, t.rooms, RoomFloor, RoomIn(floors));
    ExactOnFewerParents(t.rooms, r.rooms, RoomKey, RoomDeviceCount, t.devices, DeviceRoom);
    forall c, p | c in t.devices && DeviceIn(RoomsOn(t, floors))(c) && p in r.rooms
      ensures DeviceRoom(c) != RoomKey(p)
    {
      if c.room == p.id {
        var x :| x in t.rooms && x.floor in floors && x.id == c.room;
        UniqueSameKey(t.rooms, RoomKey, x, p);
      }
    }
    ExactAfterOrphansDeleted(r.rooms, RoomKey, RoomDeviceCount, t.devices, DeviceRoom, DeviceIn(RoomsOn(t, floors)));
  }

  lemma CountersWithoutFloors(t: Tables, buildings: set<Id>)
    requires Consistent(t) && CountersExact(t)
    requires forall b :: b in t.buildings ==> b.id !in buildings
    ensures CountersExact(WithoutFloors(t, buildings))
  {
    var u := t.(floors := DeleteMany(t.floors, FloorIn(buildings)));
    ExactAfterOrphansDeleted(t.buildings, BuildingKey, BuildingFloorCount, t.floors, FloorBuilding, FloorIn(buildings));
    ExactOnFewerParents(t.floors, u.floors, FloorKey, FloorRoomCount, t.rooms, RoomFloor);
    KeyedDeleteMany(t.floors, FloorKey, t.nextId, FloorIn(buildings));
    SurvivorsKeptKeys(t.floors, FloorKey, FloorBuilding, FloorIn(buildings), buildings);
    CountersWithoutRooms(u, FloorsOn(t, buildings));
  }

  lemma CountersWithoutBuildings(t: Tables, sites: set<Id>)
    requires Consistent(t) && CountersExact(t)
    requires forall s :: s in t.sites ==> s.id !in sites
    ensures CountersExact(WithoutBuildings(t, sites))
  {
    var u := t.(buildings := DeleteMany(t.buildings, BuildingIn(sites)));
    ExactAfterOrphansDeleted(t.sites, SiteKey, SiteBuildingCount, t.buildings, BuildingSite, BuildingIn(sites));
    ExactOnFewerParents(t.buildings, u.buildings, BuildingKey, BuildingFloorCount, t.floors, FloorBuilding);
    KeyedDeleteMany(t.buildings, BuildingKey, t.nextId, BuildingIn(sites));
    SurvivorsKeptKeys(t.buildings, BuildingKey, BuildingSite, BuildingIn(sites), sites);
    CountersWithoutFloors(u, BuildingsOn(t, sites));
  }

  // ---------------------------------------------------------------------------
  // The helpers

  function RoomDiagram(r: Room): Option<Url> { r.diagram }
  function FloorDiagram(f: Floor): Option<Url> { f.diagram }
  function BuildingCover(b: Building): Option<Url> { b.cover }

  /** `docs.filter(d => d.image).map(d => deleteImage(d.image))`: the images that are
      set, in order. */
  function SetImages<T>(s: seq<T>, image: T -> Option<Url>): (images: seq<Option<Url>>)
    ensures |images| <= |s|
    ensures forall i :: 0 <= i < |images| ==> images[i].Some?
    ensures forall i :: 0 <= i < |s| && image(s[i]).Some? ==> image(s[i]) in images
    decreases |s|
  {
    if s == [] then []
    else
      var last := s[|s| - 1];
      var before := SetImages(s[..|s| - 1], image);
      assert forall i :: 0 <= i < |s| - 1 ==> s[..|s| - 1][i] == s[i];
      before + (if image(last).Some? then [image(last)] else [])
  }

  /** The images of a concatenation are those of each part in turn; with the case of a
      single document this fixes `SetImages` completely. */
  lemma {:induction false} SetImagesConcat<T>(a: seq<T>, b: seq<T>, image: T -> Option<Url>)
    ensures SetImages(a + b, image) == SetImages(a, image) + SetImages(b, image)
    decreases |b|
  {
    if b == [] {
      assert a + b == a;
    } else {
      var n := |b| - 1;
      SetImagesConcat(a, b[..n], image);
      assert (a + b)[..|a + b| - 1] == a + b[..n];
    }
  }

  /** One image per document that has one: nothing else is deleted. */
  lemma {:induction false} SetImagesCount<T>(s: seq<T>, image: T -> Option<Url>)
    ensures |SetImages(s, image)| == Count(s, (x: T) => image(x).Some?)
    decreases |s|
  {
    if s != [] {
      var n := |s| - 1;
      SetImagesCount(s[..n], image);
      assert s == s[..n] + [s[n]];
      CountConcat(s[..n], [s[n]], (x: T) => image(x).Some?);
      assert [s[n]][1..] == [];
    }
  }

  // ---------------------------------------------------------------------------
  // The images a cascade deletes

  /** What the `removeFloorRooms` fan-out over `floors` deletes: for each floor in turn,
      the set diagrams of the rooms still stored on it when its turn comes. */
  ghost function RoomsOfFloorsLog(rooms: seq<Room>, floors: seq<Floor>): seq<Option<Url>>
    decreases |floors|
  {
    if floors == [] then []
    else
      var n := |floors| - 1;
      RoomsOfFloorsLog(rooms, floors[..n])
        + SetImages(Where(DeleteMany(rooms, RoomIn(Keys(floors[..n], FloorKey))), RoomOf(floors[n].id)), RoomDiagram)
  }

  /** What `removeBuildingFloors` deletes: the rooms' diagrams floor by floor, then the
      floors' own set diagrams. */
  ghost function BuildingFloorsLog(t: Tables, building: Id): seq<Option<Url>> {
    var found := Where(t.floors, FloorOf(building));
    RoomsOfFloorsLog(t.rooms, found) + SetImages(found, FloorDiagram)
  }

  /** What the `removeBuildingFloors` fan-out over `buildings` deletes, each building in
      the state the ones before it left. */
  ghost function FloorsOfBuildingsLog(t: Tables, buildings: seq<Building>): seq<Option<Url>>
    decreases |buildings|
  {
    if buildings == [] then []
    else
      var n := |buildings| - 1;
      FloorsOfBuildingsLog(t, buildings[..n])
        + BuildingFloorsLog(WithoutFloors(t, Keys(buildings[..n], BuildingKey)), buildings[n].id)
  }

  /** What `removeSiteBuildings` deletes: everything beneath the buildings, building by
      building, then the buildings' own set covers. */
  ghost function SiteBuildingsLog(t: Tables, site: Id): seq<Option<Url>> {
    var found := Where(t.buildings, BuildingOf(site));
    FloorsOfBuildingsLog(t.(buildings := DeleteMany(t.buildings, BuildingOf(site))), found)
      + SetImages(found, BuildingCover)
  }

  /** The set diagrams of the rooms on each floor, floor after floor. */
  ghost function DiagramsByFloor(rooms: seq<Room>, floors: seq<Floor>): seq<Option<Url>>
    decreases |floors|
  {
    if floors == [] then []
    else
      var n := |floors| - 1;
      DiagramsByFloor(rooms, floors[..n]) + SetImages(Where(rooms, RoomOf(floors[n].id)), RoomDiagram)
  }

  /** The images beneath each building, building after building: the diagrams of the
      rooms on its floors, then the diagrams of its floors. */
  ghost function ImagesByBuilding(floors: seq<Floor>, rooms: seq<Room>, buildings: seq<Building>): seq<Option<Url>>
    decreases |buildings|
  {
    if buildings == [] then []
    else
      var n := |buildings| - 1;
      var found := Where(floors, FloorOf(buildings[n].id));
      ImagesByBuilding(floors, rooms, buildings[..n]) + DiagramsByFloor(rooms, found) + SetImages(found, FloorDiagram)
  }

  lemma RoomsOfFloorsLogStep(rooms: seq<Room>, floors: seq<Floor>, i: nat)
    requires i < |floors|
    ensures RoomsOfFloorsLog(rooms, floors[..i + 1]) == RoomsOfFloorsLog(rooms, floors[..i])
      + SetImages(Where(DeleteMany(rooms, RoomIn(Keys(floors[..i], FloorKey))), RoomOf(floors[i].id)), RoomDiagram)
  {
    assert floors[..i + 1][..i] == floors[..i];
  }

  lemma FloorsOfBuildingsLogStep(t: Tables, buildings: seq<Building>, i: nat)
    requires i < |buildings|
    ensures FloorsOfBuildingsLog(t, buildings[..i + 1]) == FloorsOfBuildingsLog(t, buildings[..i])
      + BuildingFloorsLog(WithoutFloors(t, Keys(buildings[..i], BuildingKey)), buildings[i].id)
  {
    assert buildings[..i + 1][..i] == buildings[..i];
  }

  lemma LogGrows(start: seq<Option<Url>>, before: seq<Option<Url>>, done: seq<Option<Url>>, own: seq<Option<Url>>)
    requires before == start + done
    ensures before + own == start + (done + own)
  {
  }

  /** A key unique in `s` is not among the keys of the documents before it. */
  lemma KeyNotBefore<T>(s: seq<T>, key: T -> nat, n: nat)
    requires UniqueKeys(s, key) && n < |s|
    ensures key(s[n]) !in Keys(s[..n], key)
    ensures UniqueKeys(s[..n], key)
  {
    forall x | x in s[..n] ensures key(x) != key(s[n]) {
      var j :| 0 <= j < n && s[..n][j] == x;
      assert s[j] == x;
    }
  }

  /** Rooms off the given floors leave each floor's diagrams as they were. */
  lemma {:induction false} DiagramsByFloorAfterDelete(rooms: seq<Room>, floors: seq<Floor>, gone: set<Id>)
    requires forall i :: 0 <= i < |floors| ==> floors[i].id !in gone
    ensures DiagramsByFloor(DeleteMany(rooms, RoomIn(gone)), floors) == DiagramsByFloor(rooms, floors)
    decreases |floors|
  {
    if floors != [] {
      var n := |floors| - 1;
      DiagramsByFloorAfterDelete(rooms, floors[..n], gone);
      WhereAfterDeleteMany(rooms, RoomIn(gone), RoomOf(floors[n].id));
    }
  }

  /** With distinct floor ids, the fan-out deletes the set diagrams of each floor's rooms,
      floor after floor. */
  lemma {:induction false} RoomsOfFloorsLogByFloor(rooms: seq<Room>, floors: seq<Floor>)
    requires UniqueKeys(floors, FloorKey)
    ensures RoomsOfFloorsLog(rooms, floors) == DiagramsByFloor(rooms, floors)
    decreases |floors|
  {
    if floors != [] {
      var n := |floors| - 1;
      KeyNotBefore(floors, FloorKey, n);
      RoomsOfFloorsLogByFloor(rooms, floors[..n]);
      WhereAfterDeleteMany(rooms, RoomIn(Keys(floors[..n], FloorKey)), RoomOf(floors[n].id));
    }
  }

  /** With unique floor ids, `removeBuildingFloors` deletes the diagrams of the rooms on
      each of the building's floors, floor after floor, then those floors' diagrams. */
  lemma BuildingFloorsLogByFloor(t: Tables, building: Id)
    requires UniqueKeys(t.floors, FloorKey)
    ensures var found := Where(t.floors, FloorOf(building));
      BuildingFloorsLog(t, building) == DiagramsByFloor(t.rooms, found) + SetImages(found, FloorDiagram)
  {
    UniqueWhere(t.floors, FloorKey, FloorOf(building));
    RoomsOfFloorsLogByFloor(t.rooms, Where(t.floors, FloorOf(building)));
  }

  /** The floors of a building outside `a` are untouched by clearing the buildings of
      `a`, and so are the rooms on them. */
  lemma BuildingFloorsLogAfter(t: Tables, a: set<Id>, building: Id)
    requires UniqueKeys(t.floors, FloorKey) && building !in a
    ensures BuildingFloorsLog(WithoutFloors(t, a), building) == BuildingFloorsLog(t, building)
  {
    var w := WithoutFloors(t, a);
    var found := Where(t.floors, FloorOf(building));
    WhereAfterDeleteMany(t.floors, FloorIn(a), FloorOf(building));
    assert Where(w.floors, FloorOf(building)) == found;
    UniqueDeleteMany(t.floors, FloorKey, FloorIn(a));
    BuildingFloorsLogByFloor(w, building);
    BuildingFloorsLogByFloor(t, building);
    SurvivorsKeptKeys(t.floors, FloorKey, FloorBuilding, FloorIn(a), a);
    forall i | 0 <= i < |found| ensures found[i].id !in FloorsOn(t, a) {
      assert found[i] in DeleteMany(t.floors, FloorIn(a));
    }
    DiagramsByFloorAfterDelete(t.rooms, found, FloorsOn(t, a));
  }

  /** With unique ids, the fan-out over buildings deletes the images beneath each building,
      building after building. */
  lemma {:induction false} FloorsOfBuildingsLogByBuilding(t: Tables, buildings: seq<Building>)
    requires UniqueKeys(t.floors, FloorKey) && UniqueKeys(buildings, BuildingKey)
    ensures FloorsOfBuildingsLog(t, buildings) == ImagesByBuilding(t.floors, t.rooms, buildings)
    decreases |buildings|
  {
    if buildings != [] {
      var n := |buildings| - 1;
      KeyNotBefore(buildings, BuildingKey, n);
      FloorsOfBuildingsLogByBuilding(t, buildings[..n]);
      BuildingFloorsLogAfter(t, Keys(buildings[..n], BuildingKey), buildings[n].id);
      BuildingFloorsLogByFloor(t, buildings[n].id);
    }
  }

  /** With unique ids, `removeSiteBuildings` deletes the images beneath each of the site's
      buildings, building after building, then the buildings' set covers. */
  lemma SiteBuildingsLogByBuilding(t: Tables, site: Id)
    requires UniqueKeys(t.floors, FloorKey) && UniqueKeys(t.buildings, BuildingKey)
    ensures var found := Where(t.buildings, BuildingOf(site));
      SiteBuildingsLog(t, site) == ImagesByBuilding(t.floors, t.rooms, found) + SetImages(found, BuildingCover)
  {
    UniqueWhere(t.buildings, BuildingKey, BuildingOf(site));
    FloorsOfBuildingsLogByBuilding(t.(buildings := DeleteMany(t.buildings, BuildingOf(site))),
                                   Where(t.buildings, BuildingOf(site)));
  }

  /** The closing `Promise.all` of every helper: delete the image of each document found,
      skipping those without one. */
  method DeleteSetImages<T>(db: Database, found: seq<T>, image: T -> Option<Url>)
    modifies db
    ensures db.deletedImages == old(db.deletedImages) + SetImages(found, image)
    ensures db.State() == old(db.State())
  {
    for i := 0 to |found|
      invariant db.deletedImages == old(db.deletedImages) + SetImages(found[..i], image)
      invariant db.State() == old(db.State())
    {
      if image(found[i]).Some? {
        db.DeleteImage(image(found[i]));
      }
      assert found[..i + 1][..i] == found[..i];
    }
    assert found[..|found|] == found;
  }

  /** `DeviceService.removeRoomDevices(room)`. DeviceService declares no such method;
      the contract assumed here is the one every caller relies on: every device of the
      room is deleted, and no counter changes. */
  method RemoveRoomDevices(db: Database, room: Id)
    modifies db
    ensures db.State() == old(db.State()).(devices := DeleteMany(old(db.devices), DeviceOf(room)))
    ensures db.deletedImages == old(db.deletedImages)
  {
    db.devices := DeleteMany(db.devices, DeviceOf(room));
  }

  /** `RoomService.removeFloorRooms(floor)`. */
  method RemoveFloorRooms(db: Database, floor: Id)
    modifies db
    ensures db.State() == WithoutRooms(old(db.State()), {floor})
    ensures db.deletedImages == old(db.deletedImages) + SetImages(Where(old(db.rooms), RoomOf(floor)), RoomDiagram)
  {
    ghost var t := db.State();
    var found := Where(db.rooms, RoomOf(floor));
    db.rooms := DeleteMany(db.rooms, RoomOf(floor));
    DeleteManySameFilter(t.rooms, RoomOf(floor), RoomIn({floor}));
    RemoveDevicesOfRooms(db, found);
    KeysOfWhere(t.rooms, RoomKey, RoomFloor, RoomOf(floor), {floor});
    DeleteSetImages(db, found, RoomDiagram);
  }

  /** The `Promise.all(rooms.map(r => removeRoomDevices(r._id)))` fan-out. */
  method RemoveDevicesOfRooms(db: Database, found: seq<Room>)
    modifies db
    ensures db.State() == old(db.State()).(devices := DeleteMany(old(db.devices), DeviceIn(Keys(found, RoomKey))))
    ensures db.deletedImages == old(db.deletedImages)
  {
    ghost var t := db.State();
    assert Keys(found[..0], RoomKey) == {};
    DeleteManyNothing(t.devices, DeviceIn({}));
    for i := 0 to |found|
      invariant db.State() == t.(devices := DeleteMany(t.devices, DeviceIn(Keys(found[..i], RoomKey))))
      invariant db.deletedImages == old(db.deletedImages)
    {
      RemoveRoomDevices(db, found[i].id);
      KeysPrefixStep(found, RoomKey, i);
      DeleteManyTwice(t.devices, DeviceIn(Keys(found[..i], RoomKey)), DeviceOf(found[i].id),
                      DeviceIn(Keys(found[..i + 1], RoomKey)));
    }
    assert found[..|found|] == found;
  }

  /** The `Promise.all(floors.map(f => removeFloorRooms(f._id)))` fan-out. */
  method RemoveRoomsOfFloors(db: Database, found: seq<Floor>)
    modifies db
    ensures db.State() == WithoutRooms(old(db.State()), Keys(found, FloorKey))
    ensures db.deletedImages == old(db.deletedImages) + RoomsOfFloorsLog(old(db.rooms), found)
  {
    ghost var u := db.State();
    WithoutRoomsNothing(u);
    assert Keys(found[..0], FloorKey) == {};
    for i := 0 to |found|
      invariant db.State() == WithoutRooms(u, Keys(found[..i], FloorKey))
      invariant db.deletedImages == old(db.deletedImages) + RoomsOfFloorsLog(u.rooms, found[..i])
    {
      ghost var before, rooms := db.deletedImages, db.rooms;
      RemoveFloorRooms(db, found[i].id);
      RoomsOfFloorsLogStep(u.rooms, found, i);
      LogGrows(old(db.deletedImages), before, RoomsOfFloorsLog(u.rooms, found[..i]),
               SetImages(Where(rooms, RoomOf(found[i].id)), RoomDiagram));
      WithoutRoomsTwice(u, Keys(found[..i], FloorKey), {found[i].id});
      KeysPrefixStep(found, FloorKey, i);
    }
    assert found[..|found|] == found;
  }

  /** `FloorService.removeBuildingFloors(site, building)`; the site argument is unused. */
  method RemoveBuildingFloors(db: Database, site: Id, building: Id)
    modifies db
    ensures db.State() == WithoutFloors(old(db.State()), {building})
    ensures db.deletedImages == old(db.deletedImages) + BuildingFloorsLog(old(db.State()), building)
  {
    ghost var t := db.State();
    var found := Where(db.floors, FloorOf(building));
    db.floors := DeleteMany(db.floors, FloorOf(building));
    DeleteManySameFilter(t.floors, FloorOf(building), FloorIn({building}));
    RemoveRoomsOfFloors(db, found);
    KeysOfWhere(t.floors, FloorKey, FloorBuilding, FloorOf(building), {building});
    ghost var mid := db.deletedImages;
    DeleteSetImages(db, found, FloorDiagram);
    LogGrows(old(db.deletedImages), mid, RoomsOfFloorsLog(t.rooms, found), SetImages(found, FloorDiagram));
  }

  /** The `Promise.all(buildings.map(b => removeBuildingFloors(site, b._id)))` fan-out. */
  method RemoveFloorsOfBuildings(db: Database, site: Id, found: seq<Building>)
    modifies db
    ensures db.State() == WithoutFloors(old(db.State()), Keys(found, BuildingKey))
    ensures db.deletedImages == old(db.deletedImages) + FloorsOfBuildingsLog(old(db.State()), found)
  {
    ghost var u := db.State();
    WithoutFloorsNothing(u);
    assert Keys(found[..0], BuildingKey) == {};
    for i := 0 to |found|
      invariant db.State() == WithoutFloors(u, Keys(found[..i], BuildingKey))
      invariant db.deletedImages == old(db.deletedImages) + FloorsOfBuildingsLog(u, found[..i])
    {
      ghost var before, now := db.deletedImages, db.State();
      RemoveBuildingFloors(db, site, found[i].id);
      FloorsOfBuildingsLogStep(u, found, i);
      LogGrows(old(db.deletedImages), before, FloorsOfBuildingsLog(u, found[..i]), BuildingFloorsLog(now, found[i].id));
      WithoutFloorsTwice(u, Keys(found[..i], BuildingKey), {found[i].id});
      KeysPrefixStep(found, BuildingKey, i);
    }
    assert found[..|found|] == found;
  }

  /** `BuildingService.removeSiteBuildings(site)`. */
  method RemoveSiteBuildings(db: Database, site: Id)
    modifies db
    ensures db.State() == WithoutBuildings(old(db.State()), {site})
    ensures db.deletedImages == old(db.deletedImages) + SiteBuildingsLog(old(db.State()), site)
  {
    ghost var t := db.State();
    var found := Where(db.buildings, BuildingOf(site));
    db.buildings := DeleteMany(db.buildings, BuildingOf(site));
    DeleteManySameFilter(t.buildings, BuildingOf(site), BuildingIn({site}));
    ghost var u := db.State();
    RemoveFloorsOfBuildings(db, site, found);
    KeysOfWhere(t.buildings, BuildingKey, BuildingSite, BuildingOf(site), {site});
    ghost var mid := db.deletedImages;
    DeleteSetImages(db, found, BuildingCover);
    LogGrows(old(db.deletedImages), mid, FloorsOfBuildingsLog(u, found), SetImages(found, BuildingCover));
  }
}
