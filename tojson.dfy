/** The `toJSON` plugin: the `transform` installed for both `toJSON` and `toObject`,
    which rewrites the plain object `ret` of a document in place. */
module ToJson {

  /** A property value of `ret`. `Undefined` is what a read of a missing property
      yields, and what an assignment of it stores. */
  datatype Value = Undefined | ObjectId(oid: nat) | Text(text: string) | Number(number: real) | Flag(flag: bool) | Date(time: nat)

  /** The keys the transform deletes. */
  const Deleted: set<string> := {"_id", "__v", "updatedAt"}

  /** What `ret` holds after the transform: `id` carries the old `_id`, the deleted keys
      are gone, and every other key keeps its value. */
  function Transformed(ret: map<string, Value>): (r: map<string, Value>)
    ensures "id" in r && r["id"] == (if "_id" in ret then ret["_id"] else Undefined)
    ensures "_id" !in r && "__v" !in r && "updatedAt" !in r
    ensures forall k :: k in ret && k !in Deleted && k != "id" ==> k in r && r[k] == ret[k]
    ensures forall k :: k in r ==> k == "id" || k in ret
  {
    ret["id" := if "_id" in ret then ret["_id"] else Undefined] - Deleted
  }

  /** The object handed to `transform`. */
  class Ret {
    var properties: map<string, Value>

    constructor(properties: map<string, Value>)
      ensures this.properties == properties
    {
      this.properties := properties;
    }

    /** `ret.id = ret._id; delete ret._id; delete ret.__v; delete ret.updatedAt`. */
    method Transform()
      modifies this
      ensures properties == Transformed(old(properties))
    {
      var id := if "_id" in properties then properties["_id"] else Undefined;
      properties := properties["id" := id];
      properties := properties - {"_id"};
      properties := properties - {"__v"};
      properties := properties - {"updatedAt"};
    }
  }

  /** The transform keeps `createdAt` and every other schema field. */
  lemma KeepsCreatedAt(ret: map<string, Value>)
    ensures "createdAt" in ret ==> "createdAt" in Transformed(ret) && Transformed(ret)["createdAt"] == ret["createdAt"]
  {
  }

  /** A second pass finds no `_id` any more and overwrites `id` with `undefined`: the
      transform is meant to run once per serialization. */
  lemma SecondPassLosesId(ret: map<string, Value>)
    ensures Transformed(Transformed(ret))["id"] == Undefined
    ensures Transformed(Transformed(ret)) == Transformed(ret)["id" := Undefined]
  {
  }
}
