/** `OrganizationService`: organizations are scoped by their owner, the authenticated
    user; no other collection refers to them and nothing cascades from them. */
module OrganizationService {
  import opened Wrappers
  import opened Records
  import opened Collection
  import opened Pagination
  import opened Store

  const NotFoundMessage := "Organization not found"

  /** `CreateOrganizationDto`. */
  datatype CreateOrganization = CreateOrganization(name: string, address: Address)

  /** The update a caller may send: the fields of the update DTO (a partial create DTO)
      or the `{logo}` of the logo upload route. Absent fields are left alone. */
  datatype OrganizationPatch = OrganizationPatch(name: Option<string>, address: Option<Address>, logo: Option<Url>)

  function NewOrganization(id: Id, user: Id, dto: CreateOrganization): Organization {
    Organization(id, dto.name, dto.address, None, user, 0)
  }

  /** An update never moves an organization to another owner, renames its key or
      touches its counter. */
  function Patched(o: Organization, patch: OrganizationPatch): (r: Organization)
    ensures r.id == o.id && r.user == o.user && r.deviceCount == o.deviceCount
    ensures patch == OrganizationPatch(None, None, None) ==> r == o
  {
    o.(name := if patch.name.Some? then patch.name.value else o.name,
       address := if patch.address.Some? then patch.address.value else o.address,
       logo := if patch.logo.Some? then patch.logo else o.logo)
  }

  // ---------------------------------------------------------------------------
  // Reads

  /** `findOne(user, id)`: the organization with that id, only if the caller owns it. */
  function FindOne(t: Tables, user: Id, id: Id): (r: Result<Organization>)
    ensures r.Ok? ==> r.value in t.organizations && r.value.id == id && r.value.user == user
    ensures r.Err? <==> forall o :: o in t.organizations ==> !(o.id == id && o.user == user)
    ensures r.Err? ==> r.error == NotFound(NotFoundMessage)
  {
    FindOr(t.organizations, OrganizationScoped(id, user), NotFoundMessage)
  }

  /** `findAll(user, pagination)`: a page of the caller's organizations. */
  function FindAll(t: Tables, user: Id, options: Options): (r: Page<Organization>)
    ensures forall o :: o in r.results ==> o in t.organizations && o.user == user
    ensures r.pagination.totalResults == Count(t.organizations, OrganizationOf(user))
  {
    var matching := Where(t.organizations, OrganizationOf(user));
    Paginate(matching, options)
  }

  // ---------------------------------------------------------------------------
  // What each change leaves behind

  function Created(t: Tables, user: Id, dto: CreateOrganization): (r: Tables)
    ensures r == t.(organizations := r.organizations, nextId := t.nextId + 1)
    ensures r.organizations == t.organizations + [NewOrganization(t.nextId, user, dto)]
  {
    t.(organizations := t.organizations + [NewOrganization(t.nextId, user, dto)], nextId := t.nextId + 1)
  }

  function Updated(t: Tables, user: Id, id: Id, patch: OrganizationPatch): (r: (Tables, Result<Organization>))
    ensures r.1.Err? <==> FindOne(t, user, id).Err?
    ensures r.1.Err? ==> r == (t, FindOne(t, user, id))
    ensures r.1.Ok? ==> r.1.value == Patched(FindOne(t, user, id).value, patch)
    ensures r.0 == t.(organizations := r.0.organizations)
  {
    match FindOne(t, user, id)
    case Err(e) => (t, Err(e))
    case Ok(o) =>
      var v := Patched(o, patch);
      (t.(organizations := ReplaceFirst(t.organizations, OrganizationScoped(id, user), v)), Ok(v))
  }

  function Removed(t: Tables, user: Id, id: Id): (r: (Tables, Result<Organization>))
    ensures r.1 == FindOne(t, user, id)
    ensures r.1.Err? ==> r.0 == t
    ensures r.1.Ok? ==> |r.0.organizations| == |t.organizations| - 1
    ensures r.0 == t.(organizations := r.0.organizations)
  {
    match FindOne(t, user, id)
    case Err(e) => (t, Err(e))
    case Ok(o) => (t.(organizations := DeleteFirst(t.organizations, OrganizationScoped(id, user))), Ok(o))
  }

  /** `$inc: {[field]: delta}` on the organization with that id, if any. */
  function Bumped(t: Tables, id: Id, field: CountField, delta: int): (r: Tables)
    ensures r == t.(organizations := r.organizations) && |r.organizations| == |t.organizations|
  {
    t.(organizations := UpdateFirst(t.organizations, OrganizationWithId(id), OrganizationInc(field, delta)))
  }

  // ---------------------------------------------------------------------------
  // The service

  /** `create(user, dto)`: the new organization belongs to the caller. */
  method Create(db: Database, user: Id, dto: CreateOrganization) returns (o: Organization)
    modifies db
    ensures o == NewOrganization(old(db.nextId), user, dto)
    ensures db.State() == Created(old(db.State()), user, dto)
    ensures db.deletedImages == old(db.deletedImages)
  {
    var id := db.NewId();
    o := NewOrganization(id, user, dto);
    db.organizations := db.organizations + [o];
  }

  /** `update(user, id, update)` with `{new: true}`: the stored result is returned. */
  method Update(db: Database, user: Id, id: Id, patch: OrganizationPatch) returns (r: Result<Organization>)
    modifies db
    ensures (db.State(), r) == Updated(old(db.State()), user, id, patch)
    ensures db.deletedImages == old(db.deletedImages)
  {
    var found := FindFirst(db.organizations, OrganizationScoped(id, user));
    if found.None? {
      return Err(NotFound(NotFoundMessage));
    }
    var v := Patched(found.value, patch);
    db.organizations := ReplaceFirst(db.organizations, OrganizationScoped(id, user), v);
    r := Ok(v);
  }

  /** `remove(user, id)`: `findOneAndDelete` of the caller's organization. */
  method Remove(db: Database, user: Id, id: Id) returns (r: Result<Organization>)
    modifies db
    ensures (db.State(), r) == Removed(old(db.State()), user, id)
    ensures db.deletedImages == old(db.deletedImages)
  {
    var found := FindFirst(db.organizations, OrganizationScoped(id, user));
    if found.None? {
      return Err(NotFound(NotFoundMessage));
    }
    db.organizations := DeleteFirst(db.organizations, OrganizationScoped(id, user));
    r := Ok(found.value);
  }

  /** `increaseStats(id, field)`, which DeviceService calls with `DEVICE_COUNT`.
      OrganizationService declares no such method; the contract assumed here is the
      one the other services' `increaseStats` keep: `findByIdAndUpdate` with `$inc`. */
  method IncreaseStats(db: Database, id: Id, field: CountField) returns (before: Option<Organization>)
    modifies db
    ensures before == FindFirst(old(db.organizations), OrganizationWithId(id))
    ensures db.State() == Bumped(old(db.State()), id, field, 1)
    ensures db.deletedImages == old(db.deletedImages)
  {
    before := FindFirst(db.organizations, OrganizationWithId(id));
    db.organizations := UpdateFirst(db.organizations, OrganizationWithId(id), OrganizationInc(field, 1));
  }

  /** `decreaseStats(id, field)`, assumed like `increaseStats`. */
  method DecreaseStats(db: Database, id: Id, field: CountField) returns (before: Option<Organization>)
    modifies db
    ensures before == FindFirst(old(db.organizations), OrganizationWithId(id))
    ensures db.State() == Bumped(old(db.State()), id, field, -1)
    ensures db.deletedImages == old(db.deletedImages)
  {
    before := FindFirst(db.organizations, OrganizationWithId(id));
    db.organizations := UpdateFirst(db.organizations, OrganizationWithId(id), OrganizationInc(field, -1));
  }

  // ---------------------------------------------------------------------------
  // Properties

  lemma CreatedKeeps(t: Tables, user: Id, dto: CreateOrganization)
    requires Consistent(t)
    ensures Consistent(Created(t, user, dto))
    ensures CountersExact(t) ==> CountersExact(Created(t, user, dto))
  {
    KeyedAppend(t.organizations, OrganizationKey, t.nextId, NewOrganization(t.nextId, user, dto));
  }

  /** The creator finds the new organization under its fresh id; nobody else does. */
  lemma CreatedIsOwned(t: Tables, user: Id, dto: CreateOrganization, other: Id)
    requires Consistent(t)
    ensures FindOne(Created(t, user, dto), user, t.nextId) == Ok(NewOrganization(t.nextId, user, dto))
    ensures other != user ==> FindOne(Created(t, user, dto), other, t.nextId).Err?
  {
    FindAppended(t.organizations, NewOrganization(t.nextId, user, dto), OrganizationScoped(t.nextId, user));
  }

  /** The creator lists one more organization; every other user lists as many as
      before. */
  lemma CreatedIsListed(t: Tables, user: Id, dto: CreateOrganization, other: Id)
    ensures Count(Created(t, user, dto).organizations, OrganizationOf(user))
         == Count(t.organizations, OrganizationOf(user)) + 1
    ensures other != user ==>
      Count(Created(t, user, dto).organizations, OrganizationOf(other)) == Count(t.organizations, OrganizationOf(other))
  {
    var o := NewOrganization(t.nextId, user, dto);
    CountAppend(t.organizations, o, OrganizationOf(user));
    CountAppend(t.organizations, o, OrganizationOf(other));
  }

  lemma UpdatedKeeps(t: Tables, user: Id, id: Id, patch: OrganizationPatch)
    requires Consistent(t)
    ensures Consistent(Updated(t, user, id, patch).0)
    ensures CountersExact(t) ==> CountersExact(Updated(t, user, id, patch).0)
  {
    if FindOne(t, user, id).Ok? {
      var o := FindOne(t, user, id).value;
      KeyedUpdate(t.organizations, OrganizationKey, t.nextId, OrganizationScoped(id, user),
                  (x: Organization) => Patched(o, patch));
    }
  }

  /** After an update the owner finds what the update returned, and every other
      lookup sees what it saw before. */
  lemma UpdatedIsFound(t: Tables, user: Id, id: Id, patch: OrganizationPatch, user': Id, id': Id)
    requires Consistent(t)
    ensures Updated(t, user, id, patch).1.Ok? ==>
      FindOne(Updated(t, user, id, patch).0, user, id) == Updated(t, user, id, patch).1
    ensures id' != id ==> FindOne(Updated(t, user, id, patch).0, user', id') == FindOne(t, user', id')
  {
    var q := OrganizationScoped(id, user);
    if FindOne(t, user, id).Ok? {
      var v := Patched(FindOne(t, user, id).value, patch);
      FindReplaced(t.organizations, q, v);
      if id' != id {
        FindAfterReplace(t.organizations, q, v, OrganizationScoped(id', user'));
      }
    }
  }

  /** After a removal nobody finds the organization, every other lookup sees what it
      saw before, and nothing but the organization itself is deleted. */
  lemma RemovedIsGone(t: Tables, user: Id, id: Id, user': Id, id': Id)
    requires Consistent(t)
    ensures Removed(t, user, id).1.Ok? ==> FindOne(Removed(t, user, id).0, user', id).Err?
    ensures id' != id ==> FindOne(Removed(t, user, id).0, user', id') == FindOne(t, user', id')
  {
    var q := OrganizationScoped(id, user);
    if FindOne(t, user, id).Ok? {
      UniqueDeleteFirstGone(t.organizations, OrganizationKey, q);
      if id' != id {
        FindAfterDelete(t.organizations, q, OrganizationScoped(id', user'));
      }
    }
  }

  /** The organization counter is not one the store keeps exact, so a bump keeps both
      invariants whatever the field. */
  lemma BumpedKeeps(t: Tables, id: Id, field: CountField, delta: int)
    requires Consistent(t)
    ensures Consistent(Bumped(t, id, field, delta))
    ensures CountersExact(t) ==> CountersExact(Bumped(t, id, field, delta))
  {
    KeyedUpdate(t.organizations, OrganizationKey, t.nextId, OrganizationWithId(id), OrganizationInc(field, delta));
  }

  /** `decreaseStats` undoes `increaseStats`. */
  lemma BumpedRoundTrip(t: Tables, id: Id, field: CountField)
    ensures Bumped(Bumped(t, id, field, 1), id, field, -1) == t
  {
    var q := OrganizationWithId(id);
    if FindFirst(t.organizations, q).Some? {
      var o := FindFirst(t.organizations, q).value;
      assert OrganizationBump(OrganizationBump(o, field, 1), field, -1) == o;
    }
    UpdateFirstUndone(t.organizations, q, OrganizationInc(field, 1), OrganizationInc(field, -1));
  }
}
