/** Denormalized child counters. A parent document (site, building, floor, room) stores
    the number of its immediate children (`buildingCount`, `floorCount`, `roomCount`,
    `deviceCount`), and each child stores its parent's id. The lemmas here say which
    collection updates keep every stored counter equal to the live child count. */
module Counting {
  import opened Wrappers
  import opened Collection

  /** The filter `{<parent>: k}` on children. */
  function ChildOf<C>(parent: C -> nat, k: nat): C -> bool {
    (c: C) => parent(c) == k
  }

  /** Every parent's counter equals the number of children pointing at it. */
  ghost predicate CountsExact<P, C>(ps: seq<P>, key: P -> nat, counter: P -> int, cs: seq<C>, parent: C -> nat) {
    forall p :: p in ps ==> counter(p) == Count(cs, ChildOf(parent, key(p)))
  }

  /** Replacing a document of a collection with unique keys by one with the same key:
      every document left is the replacement or an untouched one with another key. */
  lemma ReplacedMembers<T>(s: seq<T>, key: T -> nat, q: T -> bool, v: T, y: T)
    requires UniqueKeys(s, key) && FindFirst(s, q).Some?
    requires key(v) == key(FindFirst(s, q).value)
    requires y in ReplaceFirst(s, q, v)
    ensures y == v || (y in s && key(y) != key(v))
  {
    var i := FirstIndex(s, q);
    var k :| 0 <= k < |s| && ReplaceFirst(s, q, v)[k] == y;
    if k != i {
      assert y == s[k];
      assert key(s[k]) != key(s[i]) by {
        if k < i { assert key(s[k]) != key(s[i]); } else { assert key(s[i]) != key(s[k]); }
      }
    }
  }

  /** A new child whose parent's counter is raised by one. */
  lemma ExactAfterChildAdded<P, C>(ps: seq<P>, key: P -> nat, counter: P -> int, cs: seq<C>, parent: C -> nat,
                                   c: C, q: P -> bool, bumped: P)
    requires UniqueKeys(ps, key) && CountsExact(ps, key, counter, cs, parent)
    requires FindFirst(ps, q).Some? && key(FindFirst(ps, q).value) == parent(c)
    requires key(bumped) == parent(c) && counter(bumped) == counter(FindFirst(ps, q).value) + 1
    ensures CountsExact(ReplaceFirst(ps, q, bumped), key, counter, cs + [c], parent)
  {
    var found := FindFirst(ps, q).value;
    forall p | p in ReplaceFirst(ps, q, bumped)
      ensures counter(p) == Count(cs + [c], ChildOf(parent, key(p)))
    {
      ReplacedMembers(ps, key, q, bumped, p);
      CountAppend(cs, c, ChildOf(parent, key(p)));
    }
  }

  /** A deleted child whose parent's counter is lowered by one. */
  lemma ExactAfterChildRemoved<P, C>(ps: seq<P>, key: P -> nat, counter: P -> int, cs: seq<C>, parent: C -> nat,
                                     qc: C -> bool, q: P -> bool, bumped: P)
    requires UniqueKeys(ps, key) && CountsExact(ps, key, counter, cs, parent)
    requires FindFirst(cs, qc).Some? && FindFirst(ps, q).Some?
    requires key(FindFirst(ps, q).value) == parent(FindFirst(cs, qc).value)
    requires key(bumped) == key(FindFirst(ps, q).value)
    requires counter(bumped) == counter(FindFirst(ps, q).value) - 1
    ensures CountsExact(ReplaceFirst(ps, q, bumped), key, counter, DeleteFirst(cs, qc), parent)
  {
    forall p | p in ReplaceFirst(ps, q, bumped)
      ensures counter(p) == Count(DeleteFirst(cs, qc), ChildOf(parent, key(p)))
    {
      ReplacedMembers(ps, key, q, bumped, p);
      CountDeleteFirst(cs, qc, ChildOf(parent, key(p)));
    }
  }

  /** A new parent starts at zero and has no children yet. */
  lemma ExactAfterParentAdded<P, C>(ps: seq<P>, key: P -> nat, counter: P -> int, cs: seq<C>, parent: C -> nat, p: P)
    requires CountsExact(ps, key, counter, cs, parent)
    requires counter(p) == 0 && forall c :: c in cs ==> parent(c) != key(p)
    ensures CountsExact(ps + [p], key, counter, cs, parent)
  {
    assert Count(cs, ChildOf(parent, key(p))) == 0;
  }

  /** A parent replaced by a document with the same key and counter (an update of
      other fields, or an `$inc` of another counter). */
  lemma ExactAfterParentReplaced<P, C>(ps: seq<P>, key: P -> nat, counter: P -> int, cs: seq<C>, parent: C -> nat,
                                       q: P -> bool, v: P)
    requires UniqueKeys(ps, key) && CountsExact(ps, key, counter, cs, parent)
    requires FindFirst(ps, q).Some? ==>
      key(v) == key(FindFirst(ps, q).value) && counter(v) == counter(FindFirst(ps, q).value)
    ensures CountsExact(ReplaceFirst(ps, q, v), key, counter, cs, parent)
  {
    if FindFirst(ps, q).Some? {
      forall p | p in ReplaceFirst(ps, q, v)
        ensures counter(p) == Count(cs, ChildOf(parent, key(p)))
      {
        ReplacedMembers(ps, key, q, v, p);
      }
    }
  }

  /** A child replaced by a document with the same parent. */
  lemma ExactAfterChildReplaced<P, C>(ps: seq<P>, key: P -> nat, counter: P -> int, cs: seq<C>, parent: C -> nat,
                                      qc: C -> bool, v: C)
    requires CountsExact(ps, key, counter, cs, parent)
    requires FindFirst(cs, qc).Some? ==> parent(v) == parent(FindFirst(cs, qc).value)
    ensures CountsExact(ps, key, counter, ReplaceFirst(cs, qc, v), parent)
  {
    if FindFirst(cs, qc).Some? {
      forall p | p in ps
        ensures counter(p) == Count(ReplaceFirst(cs, qc, v), ChildOf(parent, key(p)))
      {
        CountReplaceFirst(cs, qc, v, ChildOf(parent, key(p)));
      }
    }
  }

  /** Dropping parents keeps the counters of those that stay exact. */
  lemma ExactOnFewerParents<P, C>(ps: seq<P>, ps': seq<P>, key: P -> nat, counter: P -> int, cs: seq<C>, parent: C -> nat)
    requires CountsExact(ps, key, counter, cs, parent)
    requires forall p :: p in ps' ==> p in ps
    ensures CountsExact(ps', key, counter, cs, parent)
  {
  }

  /** A bulk delete of children none of whose parents is left keeps every counter exact. */
  lemma ExactAfterOrphansDeleted<P, C>(ps: seq<P>, key: P -> nat, counter: P -> int, cs: seq<C>, parent: C -> nat,
                                       q: C -> bool)
    requires CountsExact(ps, key, counter, cs, parent)
    requires forall c, p :: c in cs && q(c) && p in ps ==> parent(c) != key(p)
    ensures CountsExact(ps, key, counter, DeleteMany(cs, q), parent)
  {
    forall p | p in ps
      ensures counter(p) == Count(DeleteMany(cs, q), ChildOf(parent, key(p)))
    {
      CountDeleteManyDisjoint(cs, q, ChildOf(parent, key(p)));
    }
  }
}
