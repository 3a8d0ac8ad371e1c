# speedy-services-backend: the facility store, in Dafny

This project models the core of the speedy-services backend, a NestJS/Mongoose service for facility management.
Users own organizations. A facility is a chain of sites, buildings, floors, rooms and devices, and devices record events.
Each level keeps denormalized counters of what lies beneath it:

- a site's `buildingCount`;
- a building's `floorCount`;
- a floor's `roomCount`;
- a `deviceCount` on every ancestor of a device.

The model covers:

- The MongoDB database. It is the class `Store.Database`: one `seq` field per collection, in insertion (creation) order, and an id allocator standing for ObjectId generation. Its ghost field `deletedImages` logs every `MediaService.deleteImage` call. `State()` gives a value snapshot (`Tables`).
- One module per service: `SiteService`, `BuildingService`, `FloorService`, `RoomService`, `DeviceService`, `OrganizationService`, `EventService`, `UserService` and `AuthService`. The source injects each service as a stateless singleton, so each becomes a module of methods taking the shared `Database`.
- Each state-changing method is proved against a specification function over `Tables`. For example, `BuildingService.Remove` ensures `(db.State(), r) == Removed(old(db.State()), siteId, id)`.
- Lemmas prove what the service promises about that function:
  - the `_id`/email uniqueness and reference invariant `Consistent` is preserved;
  - every immediate-child counter stays equal to the live number of children (`CountersExact`);
  - a record written can be found again;
  - nothing else changes;
  - create/remove and increment/decrement round-trip.
- The cascading deletes (`removeSiteBuildings`, `removeBuildingFloors`, `removeFloorRooms`). They live in module `Cascade`, so the service modules need not import one another in a cycle. Each loop is proved against the set of ids it removes.
- The pagination plugin (`paginate`, `paginatedAggregation`, `sortBy` parsing), the `toJSON`/`toObject` transform, and the image and diagram upload pipes.

A `Result` carries the HTTP exception a service throws: `NotFound`, `Conflict` or `BadRequest`, each with its message.

## Model

| member | source | states |
|---|---|---|
| Pagination.LimitOf | src/common/plugins/pagination.plugin.ts:22-25 | `paginate`'s limit is at least 1: the parsed limit when it is positive, else 10 |
| Pagination.PageOf | src/common/plugins/pagination.plugin.ts:26-29 | `paginate`'s page is at least 1: the parsed page when it is positive, else 1 |
| Pagination.AggPage | src/common/plugins/pagination.plugin.ts:69 | `paginatedAggregation`'s page is at least 1 |
| Pagination.AggLimit | src/common/plugins/pagination.plugin.ts:70 | `paginatedAggregation`'s limit is at least 1 |
| Pagination.PageCoercionsAgree | src/common/plugins/pagination.plugin.ts:26-29 | both plugins coerce the page the same way: a positive page is kept and anything else becomes 1 |
| Pagination.LimitCoercionsDiffer | src/common/plugins/pagination.plugin.ts:69-70 | the two limit coercions differ exactly on negative limits, which give 10 in `paginate` and 1 in `paginatedAggregation`; a positive limit is kept by both |
| Pagination.Skip | src/common/plugins/pagination.plugin.ts:30 | the skip is non-negative, zero exactly on page 1, and the page's window ends at `page * limit` |
| Pagination.Window | src/common/plugins/pagination.plugin.ts:32-36 | `skip`/`limit` give the slice starting at `skip`, at most `limit` long, element for element |
| Pagination.WindowIsSubMultiset | src/common/plugins/pagination.plugin.ts:32-36 | a page never holds a document more often than the match does |
| Pagination.CeilDiv | src/common/plugins/pagination.plugin.ts:49 | `totalPages` is the least number of pages that covers `totalResults`, and it is 0 exactly when there are no results |
| Pagination.Reverse | src/common/plugins/pagination.plugin.ts:19 | the `-createdAt` order is the creation order reversed, element for element |
| Pagination.ReverseIsPermutation | src/common/plugins/pagination.plugin.ts:19 | sorting newest-first neither loses nor duplicates a document |
| Pagination.Sorted | src/common/plugins/pagination.plugin.ts:34 | any sort is a permutation of the match, of the same length. A sort whose first criterion is `-createdAt` gives the creation order reversed; any other sort keeps creation order |
| Pagination.LeadingCreatedAtDecides | src/common/plugins/pagination.plugin.ts:11-34 | a `sortBy` whose first key is `createdAt` orders the page by creation alone, whatever keys follow: newest first when that key is `desc`, oldest first otherwise |
| Pagination.Paginate | src/common/plugins/pagination.plugin.ts:5-61 | `paginate` reports the coerced page and limit, and `totalResults` equals the full match. It returns at most `limit` documents, all drawn from the match. `totalPages` is `Math.ceil(totalResults / limit)`, which covers the results and is 0 iff nothing matched. The page holds `min(limit, totalResults - skip)` documents, or none past the end. Without `sortBy` the page is the newest-first window |
| Pagination.CountStage | src/common/plugins/pagination.plugin.ts:73-81 | the `$count` stage yields nothing on an empty match, so `totalResults` falls back to 0 |
| Pagination.PaginatedAggregation | src/common/plugins/pagination.plugin.ts:64-93 | the data and count pipelines share the prefix: results are its window and `totalResults` is its length. `totalPages` is `Math.ceil(totalResults / limit)`. Pages and limits use the max-based coercion |
| Pagination.FirstPagesArePrefix | src/common/plugins/pagination.plugin.ts:30-36 | the first n pages, concatenated, are the first n·limit documents |
| Pagination.PagesTile | src/common/plugins/pagination.plugin.ts:49 | pages 1 to `totalPages`, concatenated, are exactly the whole match |
| Pagination.PageEmptyIffPastEnd | src/common/plugins/pagination.plugin.ts:30-49 | a page is empty exactly when its number exceeds `totalPages` |
| Pagination.Split | src/common/plugins/pagination.plugin.ts:13-14 | `split` yields at least one part, and no part contains the separator |
| Pagination.JoinSplit | src/common/plugins/pagination.plugin.ts:13-17 | joining the parts of a split with the same separator gives back the string |
| Pagination.SplitPrefix | src/common/plugins/pagination.plugin.ts:13 | splitting `p,rest` yields `p` followed by the parts of `rest` |
| Pagination.SplitNoSeparator | src/common/plugins/pagination.plugin.ts:14 | a string without the separator splits into itself |
| Pagination.SplitJoin | src/common/plugins/pagination.plugin.ts:13-17 | splitting a join of separator-free parts gives back the parts |
| Pagination.SplitWithout | src/common/plugins/pagination.plugin.ts:13-14 | a character missing from a string is missing from every part of its split, and a string without the separator is its own single part |
| Pagination.Criterion | src/common/plugins/pagination.plugin.ts:14-15 | an option without a colon is taken whole as an ascending key, and a space-free option gives a space-free criterion |
| Pagination.Criteria | src/common/plugins/pagination.plugin.ts:13-16 | one sort criterion per comma-separated option |
| Pagination.SortSpec | src/common/plugins/pagination.plugin.ts:10-20 | an absent or empty `sortBy` gives `-createdAt`; otherwise splitting the sort string at spaces gives back one criterion per comma-separated option, in order |
| Pagination.ParseSortBy | src/common/plugins/pagination.plugin.ts:10-20 | the `forEach`/`push` loop builds exactly the space-joined criteria, or `-createdAt` when `sortBy` is absent or empty |
| Pagination.CriterionWithoutOrder | src/common/plugins/pagination.plugin.ts:14-15 | a key with no order sorts ascending, unprefixed |
| Pagination.CriterionWithOrder | src/common/plugins/pagination.plugin.ts:14-15 | `key:order` gets a `-` prefix iff the order is exactly `desc` |
| Pagination.SortSpecOfFormat | src/common/plugins/pagination.plugin.ts:11-17 | for any list of keys and directions, formatting it as `sortBy` and parsing it gives one criterion per key, with `-` exactly on descending ones |
| Pagination.DefaultSortIsNewestFirst | src/common/plugins/pagination.plugin.ts:18-19 | with no `sortBy` the most recently created document comes first |
| Store.Database.NewId | src/event/event.service.ts:16-18 | `create` gives the new document a fresh id: the allocator's next value, which then moves past it, with nothing else changed |
| Store.Database.DeleteImage | src/media/media.service.ts:53-65 | `deleteImage` always completes: it logs the URL and changes no collection |
| SiteService.Patched | src/site/site.service.ts:83-91 | an update keeps the site's id and counters; an empty update changes nothing |
| SiteService.FindOne | src/site/site.service.ts:75-81 | a plain id lookup with no owner check: NotFound iff no site has the id |
| SiteService.FindAll | src/site/site.service.ts:34-73 | only stored sites matching the search are listed, and `totalResults` counts every match |
| SiteService.Created | src/site/site.service.ts:27-32 | create appends exactly one zero-counter site and touches no other collection |
| SiteService.Updated | src/site/site.service.ts:83-91 | update fails iff the site is absent, changing nothing; otherwise it answers the patched site and changes only the sites |
| SiteService.Removed | src/site/site.service.ts:93-103 | remove answers what `findOne` answers, and a failure changes nothing |
| SiteService.Bumped | src/site/site.service.ts:105-115 | `$inc` changes only the sites collection and keeps its size |
| SiteService.Create | src/site/site.service.ts:27-32 | the method stores `Created` and returns the new site |
| SiteService.Update | src/site/site.service.ts:83-91 | the method's new state and answer are `Updated` |
| SiteService.Remove | src/site/site.service.ts:93-103 | the method's new state is `Removed`. Its image log is exactly the cascade's images, building by building, followed by the cover only when one is set |
| SiteService.IncreaseStats | src/site/site.service.ts:105-109 | `$inc +1` on the named field of the named site |
| SiteService.DecreaseStats | src/site/site.service.ts:111-115 | `$inc -1` on the named field of the named site |
| SiteService.CreatedKeeps | src/site/site.service.ts:27-32 | create preserves the key invariants and exact counters |
| SiteService.CreatedIsFound | src/site/site.service.ts:27-32 | the new site is found under its id and every other lookup is unchanged |
| SiteService.UpdatedKeeps | src/site/site.service.ts:83-91 | update preserves the key invariants and exact counters |
| SiteService.UpdatedIsFound | src/site/site.service.ts:83-91 | the updated site is found as answered and other sites are unchanged |
| SiteService.RemovedKeeps | src/site/site.service.ts:93-103 | site removal with its cascade preserves the invariants and exact counters |
| SiteService.RemovedExactly | src/site/site.service.ts:93-103 | removal deletes the site and exactly its buildings, their floors, their rooms and their devices; users, organizations, events and other sites are untouched |
| SiteService.BumpedKeeps | src/site/site.service.ts:105-115 | a stats change keeps the invariants, and keeps the counters exact unless it is to `buildingCount` |
| SiteService.BumpedOneField | src/site/site.service.ts:105-115 | exactly one field of one site moves by the delta |
| SiteService.BumpedRoundTrip | src/site/site.service.ts:105-115 | `decreaseStats` undoes `increaseStats` |
| BuildingService.Patched | src/building/building.service.ts:107-125 | an update keeps the building's id, site and counters; an empty update changes nothing |
| BuildingService.FindOne | src/building/building.service.ts:95-105 | a building is found only under its own site. NotFound carries "Site not found" or "Building not found" according to the hop that broke |
| BuildingService.FindAll | src/building/building.service.ts:44-93 | fails iff the site is missing; lists only that site's buildings that match the search |
| BuildingService.Created | src/building/building.service.ts:34-42 | fails and changes nothing when the site is missing. Otherwise it appends the building under that site, and only sites, buildings and the id allocator change |
| BuildingService.Updated | src/building/building.service.ts:107-125 | scoped like `findOne`; NotFound changes nothing; otherwise only buildings change |
| BuildingService.Removed | src/building/building.service.ts:127-140 | remove answers what `findOne` answers, and a failure changes nothing |
| BuildingService.Bumped | src/building/building.service.ts:161-171 | `$inc` changes only the buildings collection |
| BuildingService.Create | src/building/building.service.ts:34-42 | the method's new state and answer are `Created` |
| BuildingService.Update | src/building/building.service.ts:107-125 | the method's new state and answer are `Updated` |
| BuildingService.Remove | src/building/building.service.ts:127-140 | the method's new state is `Removed`. On success its image log is exactly the cover, set or not, followed by the floor cascade's images |
| BuildingService.IncreaseStats | src/building/building.service.ts:161-165 | `$inc +1` on one field of one building |
| BuildingService.DecreaseStats | src/building/building.service.ts:167-171 | `$inc -1` on one field of one building |
| BuildingService.CreatedKeeps | src/building/building.service.ts:34-42 | create preserves the invariants and keeps `buildingCount` exact |
| BuildingService.CreatedIsFound | src/building/building.service.ts:34-42 | the new building is found under its site, and the site's `buildingCount` rose by exactly 1 |
| BuildingService.UpdatedKeeps | src/building/building.service.ts:107-125 | update preserves the invariants and exact counters |
| BuildingService.UpdatedIsFound | src/building/building.service.ts:107-125 | the updated building is found as answered and the others are unchanged |
| BuildingService.RemovedKeeps | src/building/building.service.ts:127-140 | removal with its cascade preserves the invariants and exact counters |
| BuildingService.RemovedExactly | src/building/building.service.ts:127-140 | the site's `buildingCount` falls by exactly 1 and its `deviceCount` is unchanged; every other site looks up as before. Exactly that building is gone and every other building stays; exactly its floors, their rooms and their devices are gone; users, organizations and events are untouched |
| BuildingService.BumpedKeeps | src/building/building.service.ts:161-171 | a stats change keeps the invariants, and keeps the counters exact unless it is to `floorCount` |
| BuildingService.BumpedOneField | src/building/building.service.ts:161-171 | exactly one field of one building moves by the delta |
| BuildingService.BumpedRoundTrip | src/building/building.service.ts:161-171 | `decreaseStats` undoes `increaseStats` |
| FloorService.View | src/floor/floor.service.ts:99-112 | the answer projects out `building` and keeps every other field |
| FloorService.ViewDropsOnlyBuilding | src/floor/floor.service.ts:99-112 | two floors of one building have the same answer iff they are the same floor |
| FloorService.Patched | src/floor/floor.service.ts:114-133 | an update keeps the floor's id, building and counters |
| FloorService.Lookup | src/floor/floor.service.ts:99-112 | a floor is found only under its building, resolved through its site. The error comes from the first hop that broke |
| FloorService.FindOne | src/floor/floor.service.ts:99-112 | fails exactly when `Lookup` does; otherwise answers the view of a floor of that building |
| FloorService.Listing | src/floor/floor.service.ts:84-92 | the listing's `$project` stage keeps the id, name, room count and diagram |
| FloorService.ListingDropsBuildingAndPoints | src/floor/floor.service.ts:84-92 | the listing drops `building` and `pointsCount` and nothing else: two floors alike in those look alike exactly when they are alike |
| FloorService.FindAll | src/floor/floor.service.ts:51-97 | fails iff the building chain breaks; lists at most `limit` entries, each the projection of a stored floor of that building matching the search, and counts every match |
| FloorService.Created | src/floor/floor.service.ts:34-49 | fails and changes nothing when the building does not resolve. Otherwise it appends the floor under that building |
| FloorService.Updated | src/floor/floor.service.ts:114-133 | scoped like `findOne`; NotFound changes nothing; otherwise only floors change |
| FloorService.Removed | src/floor/floor.service.ts:135-154 | remove answers what `findOne` answers, and a failure changes nothing |
| FloorService.Bumped | src/floor/floor.service.ts:173-183 | `$inc` changes only the floors collection |
| FloorService.Create | src/floor/floor.service.ts:34-49 | the method's new state and answer are `Created` |
| FloorService.Update | src/floor/floor.service.ts:114-133 | the method's new state and answer are `Updated` |
| FloorService.Remove | src/floor/floor.service.ts:135-154 | the method's new state is `Removed`. On success it attempts deletion of the diagram, then the rooms' set diagrams |
| FloorService.IncreaseStats | src/floor/floor.service.ts:173-177 | `$inc +1` on one field of one floor |
| FloorService.DecreaseStats | src/floor/floor.service.ts:179-183 | `$inc -1` on one field of one floor |
| FloorService.CreatedKeeps | src/floor/floor.service.ts:34-49 | create preserves the invariants and keeps `floorCount` exact |
| FloorService.AddedUnder | src/floor/floor.service.ts:40-47 | appending a fresh floor and raising its building's `floorCount` keeps every counter exact |
| FloorService.CreatedIsFound | src/floor/floor.service.ts:34-49 | the new floor is found under its building, and the building's `floorCount` rose by exactly 1 |
| FloorService.UpdatedKeeps | src/floor/floor.service.ts:114-133 | update preserves the invariants and exact counters |
| FloorService.UpdatedIsFound | src/floor/floor.service.ts:114-133 | the updated floor is found as answered and the others are unchanged |
| FloorService.RemovedKeeps | src/floor/floor.service.ts:135-154 | removal with its cascade preserves the invariants and exact counters |
| FloorService.RemovedFromBuilding | src/floor/floor.service.ts:135-154 | the building's `floorCount` falls by exactly 1 and its `deviceCount` is unchanged; every other building looks up as before. Sites are untouched; exactly that floor is gone and every other floor stays |
| FloorService.RemovedExactly | src/floor/floor.service.ts:135-154 | exactly the floor's rooms and their devices are deleted; sites, users, organizations and events are untouched |
| FloorService.BumpedKeeps | src/floor/floor.service.ts:173-183 | a stats change keeps the invariants, and keeps the counters exact unless it is to `roomCount` |
| FloorService.BumpedOneField | src/floor/floor.service.ts:173-183 | exactly one field of one floor moves by the delta |
| FloorService.BumpedRoundTrip | src/floor/floor.service.ts:173-183 | `decreaseStats` undoes `increaseStats` |
| RoomService.Patched | src/room/room.service.ts:117-137 | an update keeps the room's id, floor and `deviceCount` |
| RoomService.FindOne | src/room/room.service.ts:100-115 | a room is found only under its floor, resolved through the whole chain. The error comes from the first hop that broke |
| RoomService.FindAll | src/room/room.service.ts:49-98 | fails iff the floor chain breaks; lists only that floor's rooms that match the search |
| RoomService.Created | src/room/room.service.ts:34-47 | fails and changes nothing when the floor does not resolve. Otherwise it appends the room under that floor |
| RoomService.Updated | src/room/room.service.ts:117-137 | scoped like `findOne`; NotFound changes nothing; otherwise only rooms change |
| RoomService.Removed | src/room/room.service.ts:139-157 | remove answers what `findOne` answers, a failure changes nothing, and only floors, rooms and devices can change |
| RoomService.Bumped | src/room/room.service.ts:176-186 | `$inc` changes only the rooms collection |
| RoomService.Create | src/room/room.service.ts:34-47 | the method's new state and answer are `Created` |
| RoomService.Update | src/room/room.service.ts:117-137 | the method's new state and answer are `Updated` |
| RoomService.Remove | src/room/room.service.ts:139-157 | the method's new state is `Removed`. On success it attempts deletion of exactly the room's diagram |
| RoomService.IncreaseStats | src/room/room.service.ts:176-180 | `$inc +1` on one field of one room |
| RoomService.DecreaseStats | src/room/room.service.ts:182-186 | `$inc -1` on one field of one room |
| RoomService.CreatedKeeps | src/room/room.service.ts:34-47 | create preserves the invariants and keeps `roomCount` exact |
| RoomService.AddedUnder | src/room/room.service.ts:41-45 | appending a fresh room and raising its floor's `roomCount` keeps every counter exact |
| RoomService.CreatedIsFound | src/room/room.service.ts:34-47 | the new room is found under its floor, and the floor's `roomCount` rose by exactly 1 |
| RoomService.UpdatedKeeps | src/room/room.service.ts:117-137 | update preserves the invariants and exact counters |
| RoomService.UpdatedIsFound | src/room/room.service.ts:117-137 | the updated room is found as answered and the others are unchanged |
| RoomService.RemovedKeeps | src/room/room.service.ts:139-157 | removal with its devices preserves the invariants and exact counters |
| RoomService.DroppedUnder | src/room/room.service.ts:146-155 | deleting a room, lowering its floor's `roomCount` and deleting its devices keeps every counter exact |
| RoomService.RemovedExactly | src/room/room.service.ts:139-157 | the floor's `roomCount` falls by exactly 1 and its `deviceCount` is unchanged; every other floor looks up as before. Sites, buildings, users, organizations and events are untouched; exactly that room is gone, every other room stays, and exactly its devices are gone |
| RoomService.BumpedKeeps | src/room/room.service.ts:176-186 | a stats change keeps the invariants, and keeps the counters exact unless it is to `deviceCount` |
| RoomService.BumpedOneField | src/room/room.service.ts:176-186 | exactly one field of one room moves by the delta |
| RoomService.BumpedRoundTrip | src/room/room.service.ts:176-186 | `decreaseStats` undoes `increaseStats` |
| Cascade.SetImages | src/building/building.service.ts:154-158 | the images deleted after a bulk delete are all set, no more than the documents, and every set image is among them |
| Cascade.SetImagesConcat | src/building/building.service.ts:154-158 | the images of a concatenation are those of each part in turn, so the set images come in document order |
| Cascade.SetImagesCount | src/building/building.service.ts:154-158 | exactly one image per document that has one |
| Cascade.DeleteSetImages | src/building/building.service.ts:154-158 | one `deleteImage` per set image, with no collection changed |
| Cascade.RemoveRoomDevices | src/room/room.service.ts:155 | deletes exactly the room's devices and no counter |
| Cascade.RemoveFloorRooms | src/room/room.service.ts:159-174 | deletes exactly the floor's rooms and their devices, then the set diagrams of those rooms; no counter changes |
| Cascade.RemoveDevicesOfRooms | src/room/room.service.ts:167-169 | the loop over the found rooms deletes exactly the devices of those rooms |
| Cascade.RemoveRoomsOfFloors | src/floor/floor.service.ts:163-165 | the loop over the found floors deletes exactly their rooms and those rooms' devices, and logs the set room diagrams floor by floor |
| Cascade.RemoveBuildingFloors | src/floor/floor.service.ts:156-171 | deletes exactly the building's floors, their rooms and their devices; no counter changes. It logs the rooms' set diagrams floor by floor, then the floors' set diagrams |
| Cascade.RemoveFloorsOfBuildings | src/building/building.service.ts:149-153 | the loop over the found buildings deletes exactly their floor subtrees and logs each subtree's images, building by building |
| Cascade.RemoveSiteBuildings | src/building/building.service.ts:142-159 | deletes exactly the site's buildings and everything beneath them; no counter changes. It logs the images beneath each building, building by building, then the buildings' set covers |
| Cascade.DiagramsByFloorAfterDelete | src/room/room.service.ts:159-174 | deleting the rooms of other floors leaves each floor's diagrams as they were |
| Cascade.RoomsOfFloorsLogByFloor | src/floor/floor.service.ts:163-165 | for floors with distinct ids, the sequential fan-out logs exactly the set diagrams of each floor's stored rooms, floor after floor, as if each ran on the untouched store |
| Cascade.BuildingFloorsLogByFloor | src/floor/floor.service.ts:156-171 | `removeBuildingFloors` logs each floor's room diagrams, then the floors' own diagrams |
| Cascade.BuildingFloorsLogAfter | src/building/building.service.ts:149-153 | clearing other buildings' floors first does not change what a building's floor removal logs |
| Cascade.FloorsOfBuildingsLogByBuilding | src/building/building.service.ts:149-153 | for buildings with distinct ids, the fan-out logs, building after building, the images beneath each one in the untouched store |
| Cascade.SiteBuildingsLogByBuilding | src/building/building.service.ts:142-159 | `removeSiteBuildings` logs the images beneath each of the site's buildings, building after building, then the buildings' set covers |
| Cascade.WithoutRooms | src/room/room.service.ts:159-174 | the room cascade touches only rooms and devices and never grows them |
| Cascade.WithoutFloors | src/floor/floor.service.ts:156-171 | the floor cascade touches only floors, rooms and devices and never grows them |
| Cascade.WithoutBuildings | src/building/building.service.ts:142-159 | the building cascade touches only buildings, floors, rooms and devices and never grows them |
| Cascade.WithoutRoomsExactly | src/room/room.service.ts:159-174 | after the room cascade, a room survives iff its floor is outside the set, and a device iff its room was not deleted; other collections are unchanged |
| Cascade.WithoutFloorsExactly | src/floor/floor.service.ts:156-171 | the same for floors and everything beneath them |
| Cascade.WithoutBuildingsExactly | src/building/building.service.ts:142-159 | the same for buildings and everything beneath them |
| Cascade.WithoutRoomsNothing | src/room/room.service.ts:159-174 | cascading from no floors changes nothing |
| Cascade.WithoutFloorsNothing | src/floor/floor.service.ts:156-171 | cascading from no buildings changes nothing |
| Cascade.WithoutRoomsTwice | src/room/room.service.ts:167-169 | cascading from floor sets one after the other equals cascading from their union |
| Cascade.WithoutFloorsTwice | src/building/building.service.ts:149-153 | the same for buildings |
| Cascade.ConsistentWithoutRooms | src/room/room.service.ts:159-174 | the room cascade preserves the key invariants |
| Cascade.ConsistentWithoutFloors | src/floor/floor.service.ts:156-171 | the floor cascade preserves the key invariants |
| Cascade.ConsistentWithoutBuildings | src/building/building.service.ts:142-159 | the building cascade preserves the key invariants |
| Cascade.CountersWithoutRooms | src/room/room.service.ts:159-174 | once the parent floors are gone, the uncounted room cascade leaves every immediate counter exact |
| Cascade.CountersWithoutFloors | src/floor/floor.service.ts:156-171 | the same for the floor cascade |
| Cascade.CountersWithoutBuildings | src/building/building.service.ts:142-159 | the same for the building cascade |
| OrganizationService.Patched | src/organization/organization.service.ts:38-55 | an update keeps the organization's id and owner |
| OrganizationService.FindOne | src/organization/organization.service.ts:27-36 | found only when both id and owner match; otherwise NotFound |
| OrganizationService.FindAll | src/organization/organization.service.ts:23-25 | lists only the caller's organizations and counts all of them |
| OrganizationService.Created | src/organization/organization.service.ts:16-21 | appends one organization owned by the caller, and nothing else changes |
| OrganizationService.Updated | src/organization/organization.service.ts:38-55 | only an owned organization changes; NotFound changes nothing |
| OrganizationService.Removed | src/organization/organization.service.ts:57-67 | deletes exactly one owned organization, with no cascade; NotFound changes nothing |
| OrganizationService.Bumped | src/device/device.service.ts:75-78 | the stats change `DeviceService` calls changes only organizations |
| OrganizationService.Create | src/organization/organization.service.ts:16-21 | the method stores `Created` and returns the new organization |
| OrganizationService.Update | src/organization/organization.service.ts:38-55 | the method's new state and answer are `Updated` |
| OrganizationService.Remove | src/organization/organization.service.ts:57-67 | the method's new state and answer are `Removed` |
| OrganizationService.IncreaseStats | src/device/device.service.ts:75-78 | `$inc +1` on one organization |
| OrganizationService.DecreaseStats | src/device/device.service.ts:279-282 | `$inc -1` on one organization |
| OrganizationService.CreatedKeeps | src/organization/organization.service.ts:16-21 | create preserves the invariants and exact counters |
| OrganizationService.CreatedIsOwned | src/organization/organization.service.ts:16-21 | the new organization is found by its owner and by no other user |
| OrganizationService.CreatedIsListed | src/organization/organization.service.ts:16-25 | the owner's list grows by one; other users' lists are unchanged |
| OrganizationService.UpdatedKeeps | src/organization/organization.service.ts:38-55 | update preserves the invariants and exact counters |
| OrganizationService.UpdatedIsFound | src/organization/organization.service.ts:38-55 | the updated organization is found as answered, and other organizations are unchanged for every user |
| OrganizationService.RemovedIsGone | src/organization/organization.service.ts:57-67 | after removal no user finds the organization, and every other lookup is unchanged |
| OrganizationService.BumpedKeeps | src/device/device.service.ts:75-78 | the organization counter touches no invariant |
| OrganizationService.BumpedRoundTrip | src/device/device.service.ts:75-78 | decrement undoes increment |
| DeviceService.Patched | src/device/device.service.ts:223-253 | an update keeps the device's id and its whole ancestor chain |
| DeviceService.FindRoom | src/device/device.service.ts:33-49 | the room resolves through `RoomService.findOne`'s chain and belongs to the floor |
| DeviceService.FindOne | src/device/device.service.ts:196-221 | a device is found only under its resolved room. The error comes from the first hop that broke, and "Device not found" comes last |
| DeviceService.FindAll | src/device/device.service.ts:89-114 | fails iff the room chain breaks; lists only that room's devices that match the search |
| DeviceService.GetSiteDevices | src/device/device.service.ts:116-153 | fails iff the site is missing. Lists only that site's devices matching the search; only page and limit are forwarded, newest first |
| DeviceService.GetBuildingDevices | src/device/device.service.ts:155-194 | the same for a building resolved under its site |
| DeviceService.Created | src/device/device.service.ts:51-87 | fails and changes nothing when the room chain breaks. Otherwise it appends the device with the path's site, building and floor and the resolved room. Users and events are untouched |
| DeviceService.Updated | src/device/device.service.ts:223-253 | scoped like `findOne`; NotFound changes nothing; otherwise only devices change |
| DeviceService.Removed | src/device/device.service.ts:255-291 | answers what `findOne` answers. NotFound changes nothing and no counter; success deletes exactly one device |
| DeviceService.Tallied | src/device/device.service.ts:75-85 | the five counter updates touch only organizations, sites, buildings, floors and rooms |
| DeviceService.Tally | src/device/device.service.ts:75-85 | the five `increaseStats`/`decreaseStats` calls in sequence |
| DeviceService.Insert | src/device/device.service.ts:68-85 | the insert and then the five increments |
| DeviceService.Create | src/device/device.service.ts:51-87 | the method's new state and answer are `Created` |
| DeviceService.Update | src/device/device.service.ts:223-253 | the method's new state and answer are `Updated` |
| DeviceService.Remove | src/device/device.service.ts:255-291 | the method's new state and answer are `Removed` |
| DeviceService.TalliedTables | src/device/device.service.ts:75-85 | `deviceCount` moves by the delta on exactly the organization, site, building, floor and room named |
| DeviceService.TallyCommutes | src/device/device.service.ts:75-85 | the room's update commutes with the four outer ones |
| DeviceService.OuterKeeps | src/device/device.service.ts:75-82 | the outer four `deviceCount` updates keep the invariants and exact counters |
| DeviceService.AddedTo | src/device/device.service.ts:68-85 | appending a device and raising its room's `deviceCount` keeps every counter exact |
| DeviceService.DroppedFrom | src/device/device.service.ts:272-289 | deleting a device and lowering its room's `deviceCount` keeps every counter exact |
| DeviceService.CreatedKeeps | src/device/device.service.ts:51-87 | create preserves the invariants and exact counters |
| DeviceService.RemovedKeeps | src/device/device.service.ts:255-291 | remove preserves the invariants and exact counters |
| DeviceService.SameLookups | src/device/device.service.ts:33-49 | the room chain resolves alike in two stores whose lookups agree hop by hop |
| DeviceService.TalliedKeepsLookups | src/device/device.service.ts:75-85 | counter updates never change whether the room chain resolves |
| DeviceService.TalliedRoundTrip | src/device/device.service.ts:279-289 | the five decrements undo the five increments |
| DeviceService.CreatedIsFound | src/device/device.service.ts:51-87 | the new device is found under its room with the id it was given |
| DeviceService.UpdatedKeeps | src/device/device.service.ts:223-253 | update preserves the invariants and exact counters |
| DeviceService.UpdatedIsFound | src/device/device.service.ts:223-253 | the updated device is found as answered and the others are unchanged |
| DeviceService.RemovedIsGone | src/device/device.service.ts:255-291 | after removal the room still resolves and the device is NotFound |
| DeviceService.CreatedThenRemoved | src/device/device.service.ts:51-291 | create then remove of the new device restores every collection and all five counters; only the id allocator has moved |
| EventService.GetEvents | src/event/event.service.ts:20-23 | only the device's events, all counted, newest first, windowed by page and limit alone |
| EventService.Created | src/event/event.service.ts:16-18 | `create` appends exactly one event, under the next id, carrying the DTO's value and device; only events and the id allocator change |
| EventService.Create | src/event/event.service.ts:16-18 | appends exactly one event carrying the given value and device |
| EventService.CreatedKeeps | src/event/event.service.ts:16-18 | create preserves the invariants and exact counters |
| EventService.CreatedIsListed | src/event/event.service.ts:16-23 | a new event heads its device's first page and raises its count by one |
| EventService.CreatedLeavesOthers | src/event/event.service.ts:16-23 | another device's pages are unchanged by the new event |
| UserService.Patched | src/user/user.service.ts:71-96 | an update keeps the user's id, email, role and password |
| UserService.GetUserByEmail | src/user/user.service.ts:50-52 | finds the stored user with the email, and nothing iff none has it |
| UserService.GetUserById | src/user/user.service.ts:54-69 | NotFound iff no user has the id; otherwise the public profile, without password |
| UserService.GetUsers | src/user/user.service.ts:132-143 | lists only role-USER accounts, projected without password or activation date; counts them all |
| UserService.CreatedUser | src/user/user.service.ts:28-48 | Conflict iff the email is taken, inserting nothing. Otherwise it stores an active user with the hashed password and answers its public fields |
| UserService.UpdatedById | src/user/user.service.ts:71-73 | nothing iff the id is unknown, with no change; otherwise the patched user, and only users change |
| UserService.UserUpdated | src/user/user.service.ts:75-96 | NotFound iff the user is absent; the state is that of `updateUserById` |
| UserService.PasswordUpdated | src/user/user.service.ts:98-114 | NotFound for an unknown email, then BadRequest on a wrong current password, both changing nothing. Success iff the password matches |
| UserService.PasswordReset | src/user/user.service.ts:116-130 | succeeds iff a role-USER account has the id; otherwise NotFound with nothing changed |
| UserService.CreateUser | src/user/user.service.ts:28-48 | the method's new state and answer are `CreatedUser` |
| UserService.UpdateUserById | src/user/user.service.ts:71-73 | the method's new state and answer are `UpdatedById` |
| UserService.UpdateUser | src/user/user.service.ts:75-96 | the method's new state and answer are `UserUpdated` |
| UserService.UpdatePassword | src/user/user.service.ts:98-114 | the method's new state and answer are `PasswordUpdated` |
| UserService.ResetPassword | src/user/user.service.ts:116-130 | the method's new state and answer are `PasswordReset` |
| UserService.CreatedKeeps | src/user/user.service.ts:28-48 | create preserves the id and email uniqueness and exact counters |
| UserService.CreatedIsFound | src/user/user.service.ts:28-48 | the new user is found by email and id, active, with the hash of the given password |
| UserService.WithPassword | src/user/user.service.ts:112-129 | `save` changes only the users and keeps their number; the stored user is then found by id with the new password hashed |
| UserService.WithPasswordKeeps | src/user/user.service.ts:109-113 | saving a new password preserves the invariants |
| UserService.UpdatedKeeps | src/user/user.service.ts:71-73 | update preserves the invariants and exact counters |
| UserService.UpdatedIsFound | src/user/user.service.ts:75-96 | the updated profile is found as answered and other users are unchanged |
| UserService.PasswordUpdatedKeeps | src/user/user.service.ts:98-114 | a password change preserves the invariants |
| UserService.PasswordUpdatedMatches | src/user/user.service.ts:98-114 | after a change only the password differs, and changing it back with the new one as current succeeds |
| UserService.SavedIsFound | src/user/user.service.ts:109-113 | the saved user is found by email with the new hash |
| UserService.ResetSkipsAdmins | src/user/user.service.ts:116-130 | resetting an admin's password is NotFound and changes nothing |
| UserService.PasswordResetKeeps | src/user/user.service.ts:116-130 | a reset preserves the invariants |
| AuthService.SignupAsWritten | src/auth/auth.service.ts:23-39 | `signup` as written: Conflict iff the email is taken, and the state is `createUser`'s |
| AuthService.Signup | src/auth/auth.service.ts:23-39 | the corrected `signup`: the same checks and state, with a Conflict that changes nothing |
| AuthService.Activated | src/auth/auth.service.ts:41-60 | NotFound for an unknown email, BadRequest with no change for an active account, and success iff the account exists and is inactive |
| AuthService.Login | src/auth/auth.service.ts:62-95 | checks in order: unknown email, then inactive, then wrong password. Success carries the public profile and exactly `sub`, email and role |
| AuthService.SignupAccount | src/auth/auth.service.ts:23-39 | the method's new state and answer are `Signup` |
| AuthService.ActivateAccount | src/auth/auth.service.ts:41-60 | the method's new state and answer are `Activated` |
| AuthService.SignupLosesUser | src/auth/auth.service.ts:30-37 | as written, a sign-up that stored the account answers with every field undefined |
| AuthService.SignupReportsUser | src/auth/auth.service.ts:30-37 | corrected, a sign-up answers with exactly the stored account's public fields |
| AuthService.SignupThenLogin | src/auth/auth.service.ts:23-95 | a fresh sign-up can log in at once with its password, and the token names the new account |
| AuthService.SignupKeeps | src/auth/auth.service.ts:23-39 | sign-up preserves the invariants |
| AuthService.ActivatedIsFound | src/auth/auth.service.ts:52-59 | activation sets `isActive` and `activatedAt` and nothing else |
| AuthService.ActivationIsOneWay | src/auth/auth.service.ts:41-95 | after activation a repeat call fails and changes nothing, and login succeeds exactly with the stored password |
| AuthService.ActivatedKeeps | src/auth/auth.service.ts:41-60 | activation preserves the invariants |
| AuthService.PasswordChangeLogin | src/auth/auth.service.ts:62-95 | after a password change the new password logs in iff the account is active, and a different old one fails |
| ToJson.Transformed | src/common/plugins/toJSON.plugin.ts:5-10 | `id` holds the old `_id`, and `_id`, `__v` and `updatedAt` are gone. Every other key keeps its value and no key is invented |
| ToJson.Ret.Transform | src/common/plugins/toJSON.plugin.ts:15-20 | the in-place `toObject` transform leaves exactly `Transformed` of the old properties, as `toJSON`'s does |
| ToJson.KeepsCreatedAt | src/common/plugins/toJSON.plugin.ts:5-10 | `createdAt` survives unchanged |
| ToJson.SecondPassLosesId | src/common/plugins/toJSON.plugin.ts:5-10 | the transform is not idempotent: a second pass sets `id` to undefined |
| UploadPipes.ImageUpload | src/common/pipes/image.pipe.ts:9-18 | accepted iff present, at most 5 MiB and of an allowed image type; returned unchanged. Every rejection is the same BadRequest |
| UploadPipes.DiagramUpload | src/common/pipes/diagram.pipe.ts:9-18 | the same check against the diagram types |
| UploadPipes.SizeLimitIsInclusive | src/common/constants/image.constant.ts:1 | exactly 5,242,880 bytes passes both pipes and one byte more fails |
| UploadPipes.PipesDiffer | src/common/constants/image.constant.ts:3-10 | png passes both pipes; jpeg, heic and webp pass only the image pipe; svg passes only the diagram pipe |
| UploadPipes.MissingFileRejected | src/common/pipes/image.pipe.ts:10-15 | a missing file is rejected by both pipes |

## Left out

- The controllers are left out: HTTP routing and argument forwarding. Where their calls disagree with the services, the model follows the services as declared:
  - `auth.controller.ts` calls a non-existent `activeAccount`;
  - the event controller passes a from/to/eventTypes query to `getEvents`, which reads only page and limit;
  - `floor.controller.ts:43-49` and `site.controller.ts:43` pass extra leading arguments.
- `DeviceService.findRoom` passes six arguments to the four-parameter `RoomService.findOne`, and `getSiteDevices`/`getBuildingDevices` pass extra ones to `findOne`. The model resolves the chain the callee declares.
- `OrganizationService.increaseStats`/`decreaseStats` do not exist, though `DeviceService` calls them, and the organization schema has no count field. `Organization.deviceCount` and the two stats methods model the counter the calls expect.
- `DeviceService.removeRoomDevices` does not exist, though `RoomService` calls it. `Cascade.RemoveRoomDevices` is its assumed behaviour: delete the room's devices, with no counter change and no image deletion.
- The aggregate `deviceCount` of sites, buildings, floors and organizations is not kept in step by the cascades. Room, floor, building and site removal delete devices without lowering those counters, as the source does. `CountersExact` covers only the immediate-child counters, which the code does maintain.
- MongoDB Atlas `$search` ranking and `$regex` matching are an abstract name predicate (`NameQuery`). The order of search results is left out.
- `Pagination.Sorted` interprets only a sort whose first criterion is `createdAt`, which alone decides the order because creation times are distinct. A sort led by any other key is modelled as keeping creation order, whereas Mongo orders by that key's values; field comparison is not modelled.
- `populate` joins and `select` projections in `paginate` are left out.
- `SiteService.FindAll`, `BuildingService.FindAll` and `RoomService.FindAll` return the stored records: their `$project` stages keep every field these records hold and drop only `updatedAt` and the version key, which the model does not store.
- `Promise.all` fan-out in the cascades is run sequentially. The deletes touch disjoint records; concurrency races are not modelled.
- MediaService's S3 call is left out. `deleteImage` swallows its errors, so it is modelled as an always-completing call that logs its URL.
- bcrypt is an ideal injective hash `Hashed(plain)`, so salting is not modelled; `compare` is equality of hashes. The JWT is represented by its payload, and its signature and expiry are left out.
- The clock is a `now` parameter.
- Email trimming and lower-casing by the schema are not modelled; emails compare as given.
- The string-to-number cast of an event's `value` (class-transformer) is not modelled: the value arrives as a number.
- `UserService.getUserStats` is left out: wall-clock date arithmetic and floating-point percentages inside an aggregation pipeline.
- The crypto, mail, webhook, logger, guard and JWT-strategy services, the DTO validation pipes and the module wiring are left out.
- Mongoose timestamps are not stored. Each collection keeps insertion order, which is creation order, so `-createdAt` is the reverse of that order.
- ObjectIds are natural numbers from an allocator; ObjectId validation is left out.

## Findings

| source | as written | input that shows it | evidently intended | confidence | as-written member | corrected member |
|---|---|---|---|---|---|---|
| src/auth/auth.service.ts:30-37 | `signup` reads `_id`, `firstName`, `lastName`, `email` and `role` off the value `createUser` resolves to. That value is the wrapper `{user: {...}}` (src/user/user.service.ts:39-47), so every field is undefined | any sign-up with a fresh email: the account is stored but the reply is `{user: {}}` | read the fields off `newUser.user`, answering the stored account's id and public fields | not executed | AuthService.SignupLosesUser | AuthService.SignupReportsUser |
