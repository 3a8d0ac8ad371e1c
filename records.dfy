/** Record shapes of the stored documents (the Mongoose schemas), with their
    zero-defaulted counters, and the query filters the services issue against them.
    Document ids stand for Mongo ObjectIds; `createdAt`/`updatedAt` are not stored:
    every collection is kept in insertion order, which is creation order. */
module Records {
  import opened Wrappers

  type Id = nat
  type Url = string
  type Timestamp = nat

  datatype Address = Address(
    streetAddress: string,
    addressLine2: Option<string>,
    city: string,
    state: string,
    country: string,
    zip: Option<string>)

  datatype Location = Location(latitude: real, longitude: real)

  /** `Role` enum: USER and ADMIN. */
  datatype Role = UserRole | AdminRole

  /** Stored password. The pre-save hook stores a bcrypt hash; the model treats bcrypt as
      an ideal hash (salting left out), so `compare(plain, stored)` is `stored == Hashed(plain)`. */
  datatype Secret = Hashed(plain: string)

  /** The `CountField` values the services pass to `increaseStats`/`decreaseStats`. */
  datatype CountField = BuildingCount | FloorCount | RoomCount | DeviceCount

  /** `deviceCount` is not a field of the organization schema; it stands for the counter
      that DeviceService expects `OrganizationService.increaseStats` to maintain. */
  datatype Organization = Organization(
    id: Id, name: string, address: Address, logo: Option<Url>, user: Id, deviceCount: int)

  datatype Site = Site(
    id: Id, name: string, description: Option<string>, location: Location, address: Address,
    buildingCount: int, deviceCount: int, cover: Option<Url>)

  datatype Building = Building(
    id: Id, name: string, description: Option<string>, address: Address,
    floorCount: int, deviceCount: int, pointsCount: int, cover: Option<Url>, site: Id)

  datatype Floor = Floor(
    id: Id, name: string, description: Option<string>,
    roomCount: int, deviceCount: int, pointsCount: int, diagram: Option<Url>, building: Id)

  datatype Room = Room(
    id: Id, name: string, description: Option<string>,
    deviceCount: int, diagram: Option<Url>, floor: Id)

  /** A device denormalizes its whole ancestor chain. */
  datatype Device = Device(
    id: Id, name: string, uuid: string, kind: string, value: real,
    site: Id, building: Id, floor: Id, room: Id)

  datatype Event = Event(id: Id, value: real, device: Id)

  datatype User = User(
    id: Id, firstName: string, lastName: string, email: string, password: Secret,
    role: Role, profile: Option<Url>, isActive: bool, activatedAt: Option<Timestamp>)

  // `$inc: {[field]: delta}` on one document. A field the schema does not declare is
  // dropped by Mongoose's strict mode, so the document is left as it is.

  function SiteBump(s: Site, field: CountField, delta: int): Site {
    match field
    case BuildingCount => s.(buildingCount := s.buildingCount + delta)
    case DeviceCount => s.(deviceCount := s.deviceCount + delta)
    case _ => s
  }

  function BuildingBump(b: Building, field: CountField, delta: int): Building {
    match field
    case FloorCount => b.(floorCount := b.floorCount + delta)
    case DeviceCount => b.(deviceCount := b.deviceCount + delta)
    case _ => b
  }

  function FloorBump(f: Floor, field: CountField, delta: int): Floor {
    match field
    case RoomCount => f.(roomCount := f.roomCount + delta)
    case DeviceCount => f.(deviceCount := f.deviceCount + delta)
    case _ => f
  }

  function RoomBump(r: Room, field: CountField, delta: int): Room {
    match field
    case DeviceCount => r.(deviceCount := r.deviceCount + delta)
    case _ => r
  }

  function OrganizationBump(o: Organization, field: CountField, delta: int): Organization {
    match field
    case DeviceCount => o.(deviceCount := o.deviceCount + delta)
    case _ => o
  }

  // The same `$inc` as an update function, for `findByIdAndUpdate`.

  function SiteInc(field: CountField, delta: int): Site -> Site {
    (s: Site) => SiteBump(s, field, delta)
  }
  function BuildingInc(field: CountField, delta: int): Building -> Building {
    (b: Building) => BuildingBump(b, field, delta)
  }
  function FloorInc(field: CountField, delta: int): Floor -> Floor {
    (f: Floor) => FloorBump(f, field, delta)
  }
  function RoomInc(field: CountField, delta: int): Room -> Room {
    (r: Room) => RoomBump(r, field, delta)
  }
  function OrganizationInc(field: CountField, delta: int): Organization -> Organization {
    (o: Organization) => OrganizationBump(o, field, delta)
  }

  // Primary keys (the `_id` index) and the unique `email` index.

  function UserKey(u: User): Id { u.id }
  function UserEmail(u: User): string { u.email }
  function OrganizationKey(o: Organization): Id { o.id }
  function SiteKey(s: Site): Id { s.id }
  function BuildingKey(b: Building): Id { b.id }
  function FloorKey(f: Floor): Id { f.id }
  function RoomKey(r: Room): Id { r.id }
  function DeviceKey(d: Device): Id { d.id }
  function EventKey(e: Event): Id { e.id }

  // Stored counters and parent references, as functions for the counter invariant.

  function SiteBuildingCount(s: Site): int { s.buildingCount }
  function BuildingFloorCount(b: Building): int { b.floorCount }
  function FloorRoomCount(f: Floor): int { f.roomCount }
  function RoomDeviceCount(r: Room): int { r.deviceCount }

  function BuildingSite(b: Building): Id { b.site }
  function FloorBuilding(f: Floor): Id { f.building }
  function RoomFloor(r: Room): Id { r.floor }
  function DeviceRoom(d: Device): Id { d.room }

  // Query filters. `...WithId(id)` is `findById`; `...Scoped(id, parent)` is
  // `{_id: id, <parent>: parent}`; `...Of(parent)` is `{<parent>: parent}`;
  // `...In(parents)` is the same filter for every parent of a set.

  function UserWithId(id: Id): User -> bool { (u: User) => u.id == id }
  function UserWithEmail(email: string): User -> bool { (u: User) => u.email == email }
  function UserWithIdAndRole(id: Id, role: Role): User -> bool { (u: User) => u.id == id && u.role == role }
  function UserWithRole(role: Role): User -> bool { (u: User) => u.role == role }

  function OrganizationWithId(id: Id): Organization -> bool { (o: Organization) => o.id == id }
  function OrganizationScoped(id: Id, user: Id): Organization -> bool { (o: Organization) => o.id == id && o.user == user }
  function OrganizationOf(user: Id): Organization -> bool { (o: Organization) => o.user == user }

  function SiteWithId(id: Id): Site -> bool { (s: Site) => s.id == id }

  function BuildingWithId(id: Id): Building -> bool { (b: Building) => b.id == id }
  function BuildingScoped(id: Id, site: Id): Building -> bool { (b: Building) => b.id == id && b.site == site }
  function BuildingOf(site: Id): Building -> bool { (b: Building) => b.site == site }
  function BuildingIn(sites: set<Id>): Building -> bool { (b: Building) => b.site in sites }

  function FloorWithId(id: Id): Floor -> bool { (f: Floor) => f.id == id }
  function FloorScoped(id: Id, building: Id): Floor -> bool { (f: Floor) => f.id == id && f.building == building }
  function FloorOf(building: Id): Floor -> bool { (f: Floor) => f.building == building }
  function FloorIn(buildings: set<Id>): Floor -> bool { (f: Floor) => f.building in buildings }

  function RoomWithId(id: Id): Room -> bool { (r: Room) => r.id == id }
  function RoomScoped(id: Id, floor: Id): Room -> bool { (r: Room) => r.id == id && r.floor == floor }
  function RoomOf(floor: Id): Room -> bool { (r: Room) => r.floor == floor }
  function RoomIn(floors: set<Id>): Room -> bool { (r: Room) => r.floor in floors }

  function DeviceScoped(id: Id, room: Id): Device -> bool { (d: Device) => d.id == id && d.room == room }
  function DeviceOf(room: Id): Device -> bool { (d: Device) => d.room == room }
  function DeviceIn(rooms: set<Id>): Device -> bool { (d: Device) => d.room in rooms }
  function DeviceAtSite(site: Id): Device -> bool { (d: Device) => d.site == site }
  function DeviceAtBuilding(building: Id): Device -> bool { (d: Device) => d.building == building }
  function DeviceAtFloor(floor: Id): Device -> bool { (d: Device) => d.floor == floor }

  function EventOf(device: Id): Event -> bool { (e: Event) => e.device == device }

  /** The `$regex`/`$search` name match a listing applies when a search string is given:
      the text-search engine is not part of the model, so a query is the predicate it
      induces on names. No query (`search` absent or empty) matches everything. */
  type NameQuery = string -> bool

  function SiteNamed(q: Option<NameQuery>): Site -> bool {
    (s: Site) => q.None? || q.value(s.name)
  }
  function BuildingNamed(q: Option<NameQuery>, site: Id): Building -> bool {
    (b: Building) => (q.None? || q.value(b.name)) && b.site == site
  }
  function FloorNamed(q: Option<NameQuery>, building: Id): Floor -> bool {
    (f: Floor) => (q.None? || q.value(f.name)) && f.building == building
  }
  function RoomNamed(q: Option<NameQuery>, floor: Id): Room -> bool {
    (r: Room) => (q.None? || q.value(r.name)) && r.floor == floor
  }
  function DeviceNamedInRoom(q: Option<NameQuery>, room: Id): Device -> bool {
    (d: Device) => d.room == room && (q.None? || q.value(d.name))
  }
  function DeviceNamedAtSite(q: Option<NameQuery>, site: Id): Device -> bool {
    (d: Device) => d.site == site && (q.None? || q.value(d.name))
  }
  function DeviceNamedAtBuilding(q: Option<NameQuery>, building: Id): Device -> bool {
    (d: Device) => d.building == building && (q.None? || q.value(d.name))
  }
}
