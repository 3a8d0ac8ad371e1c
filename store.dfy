/** The MongoDB database the services share: one collection per model, an id
    allocator standing for ObjectId generation, and the media bucket, seen only
    through the log of image deletions the services attempt. */
module Store {
  import opened Wrappers
  import opened Records
  import opened Collection
  import opened Counting

  /** A snapshot of every collection. */
  datatype Tables = Tables(
    users: seq<User>,
    organizations: seq<Organization>,
    sites: seq<Site>,
    buildings: seq<Building>,
    floors: seq<Floor>,
    rooms: seq<Room>,
    devices: seq<Device>,
    events: seq<Event>,
    nextId: Id)

  /** Keys are unique and were all handed out before `next`. */
  ghost predicate Keyed<T>(s: seq<T>, key: T -> Id, next: Id) {
    UniqueKeys(s, key) && forall x :: x in s ==> key(x) < next
  }

  /** Every stored reference was handed out before `next`. */
  ghost predicate RefsBelow<T>(s: seq<T>, ref: T -> Id, next: Id) {
    forall x :: x in s ==> ref(x) < next
  }

  /** The `_id` index of every collection, the unique `email` index of users, and the
      fact that a parent reference never names an id not yet allocated. */
  ghost predicate Consistent(t: Tables) {
    && Keyed(t.users, UserKey, t.nextId) && UniqueKeys(t.users, UserEmail)
    && Keyed(t.organizations, OrganizationKey, t.nextId)
    && Keyed(t.sites, SiteKey, t.nextId)
    && Keyed(t.buildings, BuildingKey, t.nextId) && RefsBelow(t.buildings, BuildingSite, t.nextId)
    && Keyed(t.floors, FloorKey, t.nextId) && RefsBelow(t.floors, FloorBuilding, t.nextId)
    && Keyed(t.rooms, RoomKey, t.nextId) && RefsBelow(t.rooms, RoomFloor, t.nextId)
    && Keyed(t.devices, DeviceKey, t.nextId) && RefsBelow(t.devices, DeviceRoom, t.nextId)
    && Keyed(t.events, EventKey, t.nextId)
  }

  /** Every immediate-child counter equals the live number of children: a site's
      `buildingCount`, a building's `floorCount`, a floor's `roomCount`, a room's
      `deviceCount`. */
  ghost predicate CountersExact(t: Tables) {
    && CountsExact(t.sites, SiteKey, SiteBuildingCount, t.buildings, BuildingSite)
    && CountsExact(t.buildings, BuildingKey, BuildingFloorCount, t.floors, FloorBuilding)
    && CountsExact(t.floors, FloorKey, FloorRoomCount, t.rooms, RoomFloor)
    && CountsExact(t.rooms, RoomKey, RoomDeviceCount, t.devices, DeviceRoom)
  }

  /** A lookup that throws `NotFoundException(message)` when nothing matches. */
  function FindOr<T>(s: seq<T>, p: T -> bool, message: string): (r: Result<T>)
    ensures r.Ok? ==> FindFirst(s, p) == Some(r.value)
    ensures r.Err? ==> r.error == NotFound(message) && FindFirst(s, p).None?
  {
    match FindFirst(s, p)
    case None => Err(NotFound(message))
    case Some(x) => Ok(x)
  }

  class Database {
    var users: seq<User>
    var organizations: seq<Organization>
    var sites: seq<Site>
    var buildings: seq<Building>
    var floors: seq<Floor>
    var rooms: seq<Room>
    var devices: seq<Device>
    var events: seq<Event>
    var nextId: Id
    /** Every `MediaService.deleteImage` call, with its argument (`None` for an
        undefined URL). Deletion failures are swallowed, so a call always completes. */
    ghost var deletedImages: seq<Option<Url>>

    function State(): Tables
      reads this
    {
      Tables(users, organizations, sites, buildings, floors, rooms, devices, events, nextId)
    }

    ghost predicate Valid()
      reads this
    {
      Consistent(State())
    }

    constructor()
      ensures State() == Tables([], [], [], [], [], [], [], [], 0)
      ensures deletedImages == []
      ensures Valid() && CountersExact(State())
    {
      users, organizations, sites, buildings := [], [], [], [];
      floors, rooms, devices, events := [], [], [], [];
      nextId := 0;
      deletedImages := [];
    }

    /** A fresh ObjectId: never equal to an id already handed out. */
    method NewId() returns (id: Id)
      modifies this
      ensures id == old(nextId)
      ensures State() == old(State()).(nextId := id + 1)
      ensures deletedImages == old(deletedImages)
    {
      id := nextId;
      nextId := nextId + 1;
    }

    /** `MediaService.deleteImage(url)`. */
    method DeleteImage(url: Option<Url>)
      modifies this
      ensures deletedImages == old(deletedImages) + [url]
      ensures State() == old(State())
    {
      deletedImages := deletedImages + [url];
    }
  }

  // ---------------------------------------------------------------------------
  // How the collection operations affect the key and reference invariants

  lemma KeyedAppend<T>(s: seq<T>, key: T -> Id, next: Id, v: T)
    requires Keyed(s, key, next) && key(v) == next
    ensures Keyed(s + [v], key, next + 1)
  {
    UniqueAppend(s, key, v);
  }

  lemma KeyedUpdate<T>(s: seq<T>, key: T -> Id, next: Id, p: T -> bool, f: T -> T)
    requires Keyed(s, key, next)
    requires FindFirst(s, p).Some? ==> key(f(FindFirst(s, p).value)) == key(FindFirst(s, p).value)
    ensures Keyed(UpdateFirst(s, p, f), key, next)
  {
    if FindFirst(s, p).Some? {
      var x := FindFirst(s, p).value;
      UniqueReplaceFirst(s, key, p, f(x));
      forall y | y in UpdateFirst(s, p, f) ensures key(y) < next {
        InReplaceFirst(s, p, f(x), y);
      }
    }
  }

  lemma KeyedDeleteFirst<T>(s: seq<T>, key: T -> Id, next: Id, p: T -> bool)
    requires Keyed(s, key, next)
    ensures Keyed(DeleteFirst(s, p), key, next)
  {
    UniqueDeleteFirst(s, key, p);
    forall y | y in DeleteFirst(s, p) ensures key(y) < next {
      InDeleteFirst(s, p, y);
    }
  }

  lemma KeyedDeleteMany<T>(s: seq<T>, key: T -> Id, next: Id, p: T -> bool)
    requires Keyed(s, key, next)
    ensures Keyed(DeleteMany(s, p), key, next)
  {
    UniqueDeleteMany(s, key, p);
  }

  lemma RefsUpdate<T>(s: seq<T>, ref: T -> Id, next: Id, p: T -> bool, f: T -> T)
    requires RefsBelow(s, ref, next)
    requires FindFirst(s, p).Some? ==> ref(f(FindFirst(s, p).value)) == ref(FindFirst(s, p).value)
    ensures RefsBelow(UpdateFirst(s, p, f), ref, next)
  {
    if FindFirst(s, p).Some? {
      var x := FindFirst(s, p).value;
      forall y | y in UpdateFirst(s, p, f) ensures ref(y) < next {
        InReplaceFirst(s, p, f(x), y);
      }
    }
  }

  lemma RefsDeleteFirst<T>(s: seq<T>, ref: T -> Id, next: Id, p: T -> bool)
    requires RefsBelow(s, ref, next)
    ensures RefsBelow(DeleteFirst(s, p), ref, next)
  {
    forall y | y in DeleteFirst(s, p) ensures ref(y) < next {
      InDeleteFirst(s, p, y);
    }
  }
}
