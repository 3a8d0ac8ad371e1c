/** The document-collection operations the services use (Mongoose `Model.findOne`,
    `find`, `countDocuments`, `findOneAndDelete`, `findOneAndUpdate`, `deleteMany`),
    over a collection kept as a sequence in natural (insertion) order. A query
    filter is a predicate on documents. */
module Collection {
  import opened Wrappers

  /** Position of the first document matching `p`, or `|s|` when none does. */
  function FirstIndex<T>(s: seq<T>, p: T -> bool): (i: nat)
    ensures i <= |s|
    ensures forall j :: 0 <= j < i ==> !p(s[j])
    ensures i < |s| ==> p(s[i])
  {
    if s == [] then 0
    else if p(s[0]) then 0
    else 1 + FirstIndex(s[1..], p)
  }

  /** `findOne(filter)`: the first matching document, if any. */
  function FindFirst<T>(s: seq<T>, p: T -> bool): (r: Option<T>)
    ensures r.None? <==> forall x :: x in s ==> !p(x)
    ensures r.Some? ==> r.value in s && p(r.value)
  {
    var i := FirstIndex(s, p);
    if i < |s| then Some(s[i]) else None
  }

  /** `findOneAndDelete(filter)`: the collection without its first matching document. */
  function DeleteFirst<T>(s: seq<T>, p: T -> bool): (r: seq<T>)
    ensures FindFirst(s, p).None? ==> r == s
    ensures FindFirst(s, p).Some? ==>
      |r| == |s| - 1 && multiset(r) == multiset(s) - multiset{FindFirst(s, p).value}
  {
    var i := FirstIndex(s, p);
    if i < |s| then
      assert s == s[..i] + [s[i]] + s[i + 1..];
      s[..i] + s[i + 1..]
    else s
  }

  /** `findOneAndUpdate(filter, update)`: the first matching document replaced by `v`. */
  function ReplaceFirst<T>(s: seq<T>, p: T -> bool, v: T): (r: seq<T>)
    ensures |r| == |s|
    ensures FindFirst(s, p).None? ==> r == s
    ensures FindFirst(s, p).Some? ==>
      multiset(r) == multiset(s) - multiset{FindFirst(s, p).value} + multiset{v}
  {
    var i := FirstIndex(s, p);
    if i < |s| then
      assert s == s[..i] + [s[i]] + s[i + 1..];
      assert s[i := v] == s[..i] + [v] + s[i + 1..];
      s[i := v]
    else s
  }

  /** `findOneAndUpdate(filter, update)` where the update is a function of the matched
      document (`$set` of the given fields, `$inc` of a counter). */
  function UpdateFirst<T>(s: seq<T>, p: T -> bool, f: T -> T): (r: seq<T>)
    ensures |r| == |s|
    ensures FindFirst(s, p).None? ==> r == s
    ensures FindFirst(s, p).Some? ==>
      multiset(r) == multiset(s) - multiset{FindFirst(s, p).value} + multiset{f(FindFirst(s, p).value)}
  {
    match FindFirst(s, p)
    case None => s
    case Some(x) => ReplaceFirst(s, p, f(x))
  }

  /** The first matching position is determined by its two defining properties. */
  lemma FirstIndexIs<T>(s: seq<T>, p: T -> bool, j: nat)
    requires j <= |s| && forall k :: 0 <= k < j ==> !p(s[k])
    requires j < |s| ==> p(s[j])
    ensures FirstIndex(s, p) == j
  {
  }

  /** A lookup that matches neither the replaced document nor its replacement sees the
      collection as before. */
  lemma FindAfterReplace<T>(s: seq<T>, q: T -> bool, v: T, p: T -> bool)
    requires FindFirst(s, q).Some? ==> !p(FindFirst(s, q).value) && !p(v)
    ensures FindFirst(ReplaceFirst(s, q, v), p) == FindFirst(s, p)
  {
    var i := FirstIndex(s, q);
    if i < |s| {
      var r := s[i := v];
      var j := FirstIndex(s, p);
      forall k | 0 <= k < j ensures !p(r[k]) {
        if k != i { assert r[k] == s[k]; }
      }
      if j < |s| { assert j != i && r[j] == s[j]; }
      FirstIndexIs(r, p, j);
    }
  }

  /** Looking up with the update's own filter finds the replacement, when it still
      matches. */
  lemma FindReplaced<T>(s: seq<T>, q: T -> bool, v: T)
    requires FindFirst(s, q).Some? && q(v)
    ensures FindFirst(ReplaceFirst(s, q, v), q) == Some(v)
  {
    var i := FirstIndex(s, q);
    var r := s[i := v];
    forall k | 0 <= k < i ensures !q(r[k]) {
      assert r[k] == s[k];
    }
    FirstIndexIs(r, q, i);
  }

  /** Two updates of the same document, the first of which keeps it matching, act as
      the second alone. */
  lemma ReplaceFirstTwice<T>(s: seq<T>, q: T -> bool, v: T, w: T)
    requires FindFirst(s, q).Some? && q(v)
    ensures ReplaceFirst(ReplaceFirst(s, q, v), q, w) == ReplaceFirst(s, q, w)
  {
    var i := FirstIndex(s, q);
    var r := s[i := v];
    forall k | 0 <= k < i ensures !q(r[k]) {
      assert r[k] == s[k];
    }
    FirstIndexIs(r, q, i);
    assert r[i := w] == s[i := w];
  }

  /** Replacing a document by itself changes nothing. */
  lemma ReplaceFirstSelf<T>(s: seq<T>, q: T -> bool)
    requires FindFirst(s, q).Some?
    ensures ReplaceFirst(s, q, FindFirst(s, q).value) == s
  {
  }

  /** An update followed by one that undoes it, on a document the first keeps
      matching, leaves the collection as it was. */
  lemma UpdateFirstUndone<T>(s: seq<T>, p: T -> bool, f: T -> T, g: T -> T)
    requires FindFirst(s, p).Some? ==> p(f(FindFirst(s, p).value)) && g(f(FindFirst(s, p).value)) == FindFirst(s, p).value
    ensures UpdateFirst(UpdateFirst(s, p, f), p, g) == s
  {
    if FindFirst(s, p).Some? {
      var x := FindFirst(s, p).value;
      FindReplaced(s, p, f(x));
      ReplaceFirstTwice(s, p, f(x), x);
      ReplaceFirstSelf(s, p);
    }
  }

  /** Where each element of `s` lands once position `i` is cut out. */
  lemma DeletedAt<T>(s: seq<T>, i: nat, k: nat)
    requires i < |s| && k < |s| - 1
    ensures (s[..i] + s[i + 1..])[k] == if k < i then s[k] else s[k + 1]
  {
  }

  /** A lookup that does not match the deleted document sees the collection as before. */
  lemma FindAfterDelete<T>(s: seq<T>, q: T -> bool, p: T -> bool)
    requires FindFirst(s, q).Some? ==> !p(FindFirst(s, q).value)
    ensures FindFirst(DeleteFirst(s, q), p) == FindFirst(s, p)
  {
    var i := FirstIndex(s, q);
    if i < |s| {
      var r := s[..i] + s[i + 1..];
      assert DeleteFirst(s, q) == r;
      var j := FirstIndex(s, p);
      if j < i {
        forall k | 0 <= k < j ensures !p(r[k]) { DeletedAt(s, i, k); }
        DeletedAt(s, i, j);
        FirstIndexIs(r, p, j);
        assert FindFirst(r, p) == Some(s[j]);
      } else {
        assert j != i || j == |s|;
        var j' := if j == |s| then |r| else j - 1;
        forall k | 0 <= k < j' ensures !p(r[k]) { DeletedAt(s, i, k); }
        if j < |s| { DeletedAt(s, i, j'); }
        FirstIndexIs(r, p, j');
        assert FindFirst(r, p) == FindFirst(s, p);
      }
    }
  }

  /** Appending a document the lookup does not match leaves the lookup as it was. */
  lemma FindAfterAppend<T>(s: seq<T>, v: T, p: T -> bool)
    requires !p(v)
    ensures FindFirst(s + [v], p) == FindFirst(s, p)
  {
    var j := FirstIndex(s, p);
    var j' := if j < |s| then j else |s| + 1;
    forall k | 0 <= k < j' ensures !p((s + [v])[k]) {
      if k < |s| { assert (s + [v])[k] == s[k]; }
    }
    if j < |s| { assert (s + [v])[j] == s[j]; }
    FirstIndexIs(s + [v], p, j');
  }

  /** Appending the only matching document makes the lookup find it. */
  lemma FindAppended<T>(s: seq<T>, v: T, p: T -> bool)
    requires p(v) && forall x :: x in s ==> !p(x)
    ensures FindFirst(s + [v], p) == Some(v)
  {
    forall k | 0 <= k < |s| ensures !p((s + [v])[k]) { assert (s + [v])[k] in s; }
    FirstIndexIs(s + [v], p, |s|);
  }

  /** `find(filter)`: every matching document, in natural order. */
  function Where<T>(s: seq<T>, p: T -> bool): (r: seq<T>)
    ensures forall x :: x in r ==> x in s && p(x)
    ensures forall x :: x in s && p(x) ==> x in r
    ensures |r| <= |s|
  {
    if s == [] then []
    else if p(s[0]) then [s[0]] + Where(s[1..], p)
    else Where(s[1..], p)
  }

  /** A document inserted last is selected last, when it matches. */
  lemma {:induction false} WhereAppend<T>(s: seq<T>, x: T, p: T -> bool)
    ensures Where(s + [x], p) == Where(s, p) + (if p(x) then [x] else [])
  {
    if s == [] {
      assert [x][1..] == [];
    } else {
      assert (s + [x])[1..] == s[1..] + [x];
      WhereAppend(s[1..], x, p);
    }
  }

  /** A filter every document passes selects the whole collection. */
  lemma {:induction false} WhereAll<T>(s: seq<T>, p: T -> bool)
    requires forall x :: x in s ==> p(x)
    ensures Where(s, p) == s
  {
    if s != [] {
      WhereAll(s[1..], p);
    }
  }

  /** `deleteMany(filter)`: the collection without any matching document. */
  function DeleteMany<T>(s: seq<T>, p: T -> bool): (r: seq<T>)
    ensures forall x :: x in r ==> x in s && !p(x)
    ensures forall x :: x in s && !p(x) ==> x in r
    ensures |r| <= |s|
  {
    if s == [] then []
    else if p(s[0]) then DeleteMany(s[1..], p)
    else [s[0]] + DeleteMany(s[1..], p)
  }

  /** `countDocuments(filter)`. */
  function Count<T>(s: seq<T>, p: T -> bool): (n: nat)
    ensures n == |Where(s, p)|
    ensures n == 0 <==> forall x :: x in s ==> !p(x)
  {
    if s == [] then 0
    else (if p(s[0]) then 1 else 0) + Count(s[1..], p)
  }

  lemma {:induction false} CountConcat<T>(a: seq<T>, b: seq<T>, p: T -> bool)
    ensures Count(a + b, p) == Count(a, p) + Count(b, p)
  {
    if a == [] {
      assert a + b == b;
    } else {
      assert (a + b)[1..] == a[1..] + b;
      CountConcat(a[1..], b, p);
    }
  }

  /** The count splits around any position: before it, the document there, after it. */
  lemma CountAround<T>(s: seq<T>, i: nat, p: T -> bool)
    requires i < |s|
    ensures Count(s, p) == Count(s[..i], p) + (if p(s[i]) then 1 else 0) + Count(s[i + 1..], p)
  {
    var rest := s[i..];
    assert s == s[..i] + rest;
    CountConcat(s[..i], rest, p);
    assert rest[0] == s[i] && rest[1..] == s[i + 1..];
    assert Count(rest, p) == (if p(rest[0]) then 1 else 0) + Count(rest[1..], p);
  }

  /** Inserting a document raises the count of a filter by one exactly when it matches. */
  lemma CountAppend<T>(s: seq<T>, x: T, p: T -> bool)
    ensures Count(s + [x], p) == Count(s, p) + (if p(x) then 1 else 0)
  {
    CountConcat(s, [x], p);
    assert Count([x], p) == (if p(x) then 1 else 0) + Count([x][1..], p);
  }

  /** Deleting the first document matching `q` lowers the count of `p` by one exactly when
      that document matches `p`. */
  lemma CountDeleteFirst<T>(s: seq<T>, q: T -> bool, p: T -> bool)
    requires FindFirst(s, q).Some?
    ensures Count(DeleteFirst(s, q), p)
         == Count(s, p) - (if p(FindFirst(s, q).value) then 1 else 0)
  {
    var i := FirstIndex(s, q);
    CountAround(s, i, p);
    CountConcat(s[..i], s[i + 1..], p);
  }

  /** Replacing the first document matching `q` by `v` moves one unit of the count of `p`
      from the old document to `v`. */
  lemma CountReplaceFirst<T>(s: seq<T>, q: T -> bool, v: T, p: T -> bool)
    requires FindFirst(s, q).Some?
    ensures Count(ReplaceFirst(s, q, v), p)
         == Count(s, p) - (if p(FindFirst(s, q).value) then 1 else 0) + (if p(v) then 1 else 0)
  {
    var i := FirstIndex(s, q);
    var r := s[i := v];
    CountAround(s, i, p);
    CountAround(r, i, p);
    assert r[..i] == s[..i] && r[i + 1..] == s[i + 1..];
  }

  /** A bulk delete that hits no document matching `p` leaves the count of `p` unchanged. */
  lemma {:induction false} CountDeleteManyDisjoint<T>(s: seq<T>, q: T -> bool, p: T -> bool)
    requires forall x :: x in s && p(x) ==> !q(x)
    ensures Count(DeleteMany(s, q), p) == Count(s, p)
  {
    if s != [] {
      CountDeleteManyDisjoint(s[1..], q, p);
      if !q(s[0]) {
        assert DeleteMany(s, q)[1..] == DeleteMany(s[1..], q);
      }
    }
  }

  /** Two bulk deletes in a row equal one bulk delete by the disjunction of the filters. */
  lemma {:induction false} DeleteManyTwice<T>(s: seq<T>, q1: T -> bool, q2: T -> bool, q: T -> bool)
    requires forall x :: x in s ==> (q(x) <==> q1(x) || q2(x))
    ensures DeleteMany(DeleteMany(s, q1), q2) == DeleteMany(s, q)
  {
    if s != [] {
      DeleteManyTwice(s[1..], q1, q2, q);
    }
  }

  /** A bulk delete whose filter matches nothing leaves the collection as it was. */
  lemma {:induction false} DeleteManyNothing<T>(s: seq<T>, q: T -> bool)
    requires forall x :: x in s ==> !q(x)
    ensures DeleteMany(s, q) == s
  {
    if s != [] {
      DeleteManyNothing(s[1..], q);
    }
  }

  /** No two documents of the collection share a key (the unique `_id` index). */
  ghost predicate UniqueKeys<T, K>(s: seq<T>, key: T -> K) {
    forall i, j :: 0 <= i < j < |s| ==> key(s[i]) != key(s[j])
  }

  lemma UniqueSameKey<T, K>(s: seq<T>, key: T -> K, x: T, y: T)
    requires UniqueKeys(s, key) && x in s && y in s && key(x) == key(y)
    ensures x == y
  {
    var i :| 0 <= i < |s| && s[i] == x;
    var j :| 0 <= j < |s| && s[j] == y;
    assert !(i < j) && !(j < i);
  }

  lemma UniqueAppend<T, K>(s: seq<T>, key: T -> K, v: T)
    requires UniqueKeys(s, key)
    requires forall x :: x in s ==> key(x) != key(v)
    ensures UniqueKeys(s + [v], key)
  {
    var t := s + [v];
    forall i, j | 0 <= i < j < |t| ensures key(t[i]) != key(t[j]) {
      if j == |s| {
        assert t[i] in s;
      }
    }
  }

  lemma {:induction false} UniqueDeleteMany<T, K>(s: seq<T>, key: T -> K, q: T -> bool)
    requires UniqueKeys(s, key)
    ensures UniqueKeys(DeleteMany(s, q), key)
  {
    if s != [] {
      UniqueDeleteMany(s[1..], key, q);
      var r := DeleteMany(s, q);
      if !q(s[0]) {
        forall i, j | 0 <= i < j < |r| ensures key(r[i]) != key(r[j]) {
          if i == 0 {
            assert r[j] in DeleteMany(s[1..], q);
            var k :| 0 <= k < |s[1..]| && s[1..][k] == r[j];
            assert s[k + 1] == r[j];
          } else {
            assert r[i] == DeleteMany(s[1..], q)[i - 1];
            assert r[j] == DeleteMany(s[1..], q)[j - 1];
          }
        }
      }
    }
  }

  lemma {:induction false} UniqueWhere<T, K>(s: seq<T>, key: T -> K, p: T -> bool)
    requires UniqueKeys(s, key)
    ensures UniqueKeys(Where(s, p), key)
  {
    if s != [] {
      UniqueWhere(s[1..], key, p);
      var r := Where(s, p);
      if p(s[0]) {
        forall i, j | 0 <= i < j < |r| ensures key(r[i]) != key(r[j]) {
          if i == 0 {
            assert r[j] in Where(s[1..], p);
            var k :| 0 <= k < |s[1..]| && s[1..][k] == r[j];
            assert s[k + 1] == r[j];
          } else {
            assert r[i] == Where(s[1..], p)[i - 1];
            assert r[j] == Where(s[1..], p)[j - 1];
          }
        }
      }
    }
  }

  /** Deleting documents a filter never selects leaves that filter's selection as it was. */
  lemma {:induction false} WhereAfterDeleteMany<T>(s: seq<T>, q: T -> bool, p: T -> bool)
    requires forall x :: p(x) ==> !q(x)
    ensures Where(DeleteMany(s, q), p) == Where(s, p)
  {
    if s != [] {
      WhereAfterDeleteMany(s[1..], q, p);
      if !q(s[0]) {
        var d := [s[0]] + DeleteMany(s[1..], q);
        assert d[0] == s[0] && d[1..] == DeleteMany(s[1..], q);
      }
    }
  }

  lemma UniqueDeleteFirst<T, K>(s: seq<T>, key: T -> K, q: T -> bool)
    requires UniqueKeys(s, key)
    ensures UniqueKeys(DeleteFirst(s, q), key)
  {
    var i := FirstIndex(s, q);
    if i < |s| {
      var r := s[..i] + s[i + 1..];
      forall a, b | 0 <= a < b < |r| ensures key(r[a]) != key(r[b]) {
        var a' := if a < i then a else a + 1;
        var b' := if b < i then b else b + 1;
        assert r[a] == s[a'] && r[b] == s[b'];
      }
    }
  }

  /** Once the first document matching `q` is deleted, no document with its key is left. */
  lemma UniqueDeleteFirstGone<T, K>(s: seq<T>, key: T -> K, q: T -> bool)
    requires UniqueKeys(s, key) && FindFirst(s, q).Some?
    ensures forall y :: y in DeleteFirst(s, q) ==> key(y) != key(FindFirst(s, q).value)
  {
    var i := FirstIndex(s, q);
    var r := s[..i] + s[i + 1..];
    forall y | y in r ensures key(y) != key(s[i]) {
      var k :| 0 <= k < |r| && r[k] == y;
      if k < i { assert y == s[k]; } else { assert y == s[k + 1]; }
    }
  }

  lemma UniqueReplaceFirst<T, K>(s: seq<T>, key: T -> K, q: T -> bool, v: T)
    requires UniqueKeys(s, key)
    requires FindFirst(s, q).Some? ==> key(v) == key(FindFirst(s, q).value)
    ensures UniqueKeys(ReplaceFirst(s, q, v), key)
  {
  }

  /** In a collection with unique keys, a filter that selects exactly the key of `x`
      finds `x`. */
  lemma FindByKey<T, K>(s: seq<T>, key: T -> K, p: T -> bool, x: T)
    requires UniqueKeys(s, key) && x in s
    requires forall y :: y in s ==> (p(y) <==> key(y) == key(x))
    ensures FindFirst(s, p) == Some(x)
  {
    var r := FindFirst(s, p);
    assert p(x);
    UniqueSameKey(s, key, r.value, x);
  }

  /** Membership in a replaced collection: an old document or the replacement. */
  lemma InReplaceFirst<T>(s: seq<T>, q: T -> bool, v: T, y: T)
    requires y in ReplaceFirst(s, q, v)
    ensures y in s || y == v
  {
    var r := ReplaceFirst(s, q, v);
    assert y in multiset(r);
  }

  /** An update that keeps every document's verdict under `p` keeps a lookup by `p`
      successful or failing as it was. */
  lemma FoundAfterUpdate<T>(s: seq<T>, q: T -> bool, f: T -> T, p: T -> bool)
    requires FindFirst(s, q).Some? ==> (p(f(FindFirst(s, q).value)) <==> p(FindFirst(s, q).value))
    ensures FindFirst(UpdateFirst(s, q, f), p).Some? <==> FindFirst(s, p).Some?
  {
    if FindFirst(s, q).Some? {
      var i := FirstIndex(s, q);
      var r := s[i := f(s[i])];
      assert r == UpdateFirst(s, q, f);
      if FindFirst(s, p).Some? {
        var j := FirstIndex(s, p);
        assert p(r[j]);
      }
      if FindFirst(r, p).Some? {
        var j := FirstIndex(r, p);
        assert p(s[j]);
      }
    }
  }

  /** Deleting the only match of a document just appended gives the collection back. */
  lemma DeleteAppended<T>(s: seq<T>, v: T, p: T -> bool)
    requires p(v) && forall x :: x in s ==> !p(x)
    ensures DeleteFirst(s + [v], p) == s
  {
    FirstIndexIs(s + [v], p, |s|);
    assert (s + [v])[..|s|] == s;
  }

  lemma InDeleteFirst<T>(s: seq<T>, q: T -> bool, y: T)
    requires y in DeleteFirst(s, q)
    ensures y in s
  {
    assert y in multiset(DeleteFirst(s, q));
  }

  /** With unique keys, a delete-first removes exactly the document with the matched key
      and keeps every other one. */
  lemma InDeleteFirstIff<T, K>(s: seq<T>, key: T -> K, q: T -> bool)
    requires UniqueKeys(s, key) && FindFirst(s, q).Some?
    ensures forall y :: y in DeleteFirst(s, q) <==> y in s && key(y) != key(FindFirst(s, q).value)
  {
    var v := FindFirst(s, q).value;
    UniqueDeleteFirstGone(s, key, q);
    forall y | y in DeleteFirst(s, q) ensures y in s {
      InDeleteFirst(s, q, y);
    }
    forall y | y in s && key(y) != key(v) ensures y in DeleteFirst(s, q) {
      assert y != v;
      assert multiset(DeleteFirst(s, q))[y] == multiset(s)[y];
    }
  }

  /** A bulk delete depends only on which of the collection's documents its filter hits. */
  lemma {:induction false} DeleteManySameFilter<T>(s: seq<T>, p: T -> bool, q: T -> bool)
    requires forall x :: x in s ==> (p(x) <==> q(x))
    ensures DeleteMany(s, p) == DeleteMany(s, q)
  {
    if s != [] {
      DeleteManySameFilter(s[1..], p, q);
    }
  }

  /** The keys of the documents of a collection. */
  ghost function Keys<T>(s: seq<T>, key: T -> nat): set<nat> {
    set x | x in s :: key(x)
  }

  /** The keys of the documents whose parent reference lies in `parents`. */
  ghost function KeysWhere<T>(s: seq<T>, key: T -> nat, parent: T -> nat, parents: set<nat>): set<nat> {
    set x | x in s && parent(x) in parents :: key(x)
  }

  lemma KeysOfWhere<T>(s: seq<T>, key: T -> nat, parent: T -> nat, p: T -> bool, parents: set<nat>)
    requires forall x :: p(x) <==> parent(x) in parents
    ensures Keys(Where(s, p), key) == KeysWhere(s, key, parent, parents)
  {
    forall k | k in KeysWhere(s, key, parent, parents) ensures k in Keys(Where(s, p), key) {
      var x :| x in s && parent(x) in parents && key(x) == k;
      assert x in Where(s, p);
    }
  }

  lemma KeysAppend<T>(s: seq<T>, key: T -> nat, x: T)
    ensures Keys(s + [x], key) == Keys(s, key) + {key(x)}
  {
    forall k | k in Keys(s + [x], key) ensures k in Keys(s, key) + {key(x)} {
      var y :| y in s + [x] && key(y) == k;
      if y != x { assert y in s; }
    }
  }

  /** The keys of a prefix one longer: those of the shorter prefix and the next key. */
  lemma KeysPrefixStep<T>(s: seq<T>, key: T -> nat, i: nat)
    requires i < |s|
    ensures Keys(s[..i + 1], key) == Keys(s[..i], key) + {key(s[i])}
  {
    assert s[..i + 1] == s[..i] + [s[i]];
    KeysAppend(s[..i], key, s[i]);
  }

  /** With unique keys, no document left by a bulk delete of the children of `a`
      carries the key of a deleted one. */
  lemma SurvivorsKeptKeys<T>(s: seq<T>, key: T -> nat, parent: T -> nat, q: T -> bool, a: set<nat>)
    requires UniqueKeys(s, key)
    requires forall x :: q(x) <==> parent(x) in a
    ensures forall y :: y in DeleteMany(s, q) ==> key(y) !in KeysWhere(s, key, parent, a)
  {
  }

  /** Deleting the children of `a`, then those of `b` among the rest, reaches the same
      children as deleting those of `a + b` at once. */
  lemma KeysWhereAfterDelete<T>(s: seq<T>, key: T -> nat, parent: T -> nat, q: T -> bool, a: set<nat>, b: set<nat>)
    requires forall x :: q(x) <==> parent(x) in a
    ensures KeysWhere(s, key, parent, a) + KeysWhere(DeleteMany(s, q), key, parent, b)
         == KeysWhere(s, key, parent, a + b)
  {
    var lhs := KeysWhere(s, key, parent, a) + KeysWhere(DeleteMany(s, q), key, parent, b);
    forall k | k in KeysWhere(s, key, parent, a + b) ensures k in lhs {
      var x :| x in s && parent(x) in a + b && key(x) == k;
      if parent(x) !in a {
        assert x in DeleteMany(s, q);
      }
    }
  }
}
