/** The two pagination plugins every schema installs: `paginate` (a `find` with
    sort/skip/limit plus a `countDocuments` on the same filter) and
    `paginatedAggregation` (an aggregation pipeline run twice, once with a `$count`
    stage and once with `$skip`/`$limit`). A matching set of documents is given as
    the sequence the filter or the pipeline prefix selects, in natural order. */
module Pagination {
  import opened Wrappers

  /** The options object. `page` and `limit` are what `parseInt(`${x}`, 10)` yields
      (`None` when the option is absent or not a number); `sortBy` is the raw string.
      `projection` and `populate` are applied by the callers' own result types. */
  datatype Options = Options(page: Option<int>, limit: Option<int>, sortBy: Option<string>)

  datatype PageInfo = PageInfo(page: int, limit: int, totalPages: int, totalResults: int)

  datatype Page<T> = Page(results: seq<T>, pagination: PageInfo)

  const DefaultLimit: int := 10
  const DefaultSort: string := "-createdAt"

  // ---------------------------------------------------------------------------
  // Page and limit coercion

  /** `paginate`: the parsed limit when it is positive, 10 otherwise. */
  function LimitOf(limit: Option<int>): (n: int)
    ensures n >= 1
  {
    if limit.Some? && limit.value > 0 then limit.value else DefaultLimit
  }

  /** `paginate`: the parsed page when it is positive, 1 otherwise. */
  function PageOf(page: Option<int>): (n: int)
    ensures n >= 1
  {
    if page.Some? && page.value > 0 then page.value else 1
  }

  function Max(a: int, b: int): int {
    if a >= b then a else b
  }

  /** `paginatedAggregation`: `Math.max(parsed || 1, 1)`; `NaN` and `0` are falsy. */
  function AggPage(page: Option<int>): (n: int)
    ensures n >= 1
  {
    Max(if page.None? || page.value == 0 then 1 else page.value, 1)
  }

  /** `paginatedAggregation`: `Math.max(parsed || 10, 1)`. */
  function AggLimit(limit: Option<int>): (n: int)
    ensures n >= 1
  {
    Max(if limit.None? || limit.value == 0 then DefaultLimit else limit.value, 1)
  }

  /** Both plugins coerce the page the same way. */
  lemma PageCoercionsAgree(page: Option<int>)
    ensures PageOf(page) == AggPage(page)
    ensures page.Some? && page.value >= 1 ==> PageOf(page) == page.value
    ensures page.None? || page.value < 1 ==> PageOf(page) == 1
  {
  }

  /** The limits agree except on a negative limit, which `paginate` turns into 10 and
      `paginatedAggregation` into 1. */
  lemma LimitCoercionsDiffer(limit: Option<int>)
    ensures LimitOf(limit) != AggLimit(limit) <==> limit.Some? && limit.value < 0
    ensures limit.Some? && limit.value < 0 ==> LimitOf(limit) == 10 && AggLimit(limit) == 1
    ensures limit.Some? && limit.value >= 1 ==> LimitOf(limit) == limit.value == AggLimit(limit)
  {
  }

  /** `(page - 1) * limit`: never negative, and page 1 starts at offset 0. */
  function Skip(page: int, limit: int): (skip: nat)
    requires page >= 1 && limit >= 1
    ensures page == 1 <==> skip == 0
    ensures skip + limit == page * limit
  {
    (page - 1) * limit
  }

  // ---------------------------------------------------------------------------
  // The data phase and the count phase

  function Min(a: int, b: int): int {
    if a <= b then a else b
  }

  /** `.skip(skip).limit(limit)` (or the `$skip`/`$limit` stages) on a sequence. */
  function Window<T>(s: seq<T>, skip: nat, limit: nat): (r: seq<T>)
    ensures |r| <= limit
    ensures |r| == (if skip >= |s| then 0 else Min(limit, |s| - skip))
    ensures forall i :: 0 <= i < |r| ==> skip + i < |s| && r[i] == s[skip + i]
  {
    if skip >= |s| then [] else s[skip..Min(skip + limit, |s|)]
  }

  /** `Math.ceil(n / d)` for a count `n` and a positive limit `d`. */
  function CeilDiv(n: nat, d: int): (q: nat)
    requires d >= 1
    ensures q * d >= n
    ensures q > 0 ==> (q - 1) * d < n
    ensures q == 0 <==> n == 0
    decreases n
  {
    if n == 0 then 0
    else if n <= d then 1
    else
      var q' := CeilDiv(n - d, d);
      assert (q' + 1) * d == q' * d + d;
      q' + 1
  }

  /** The sequence in reverse. Ids grow with insertion, so natural order is creation
      order and `-createdAt` is the reverse of it. */
  function Reverse<T>(s: seq<T>): (r: seq<T>)
    ensures |r| == |s|
    ensures forall i :: 0 <= i < |s| ==> r[i] == s[|s| - 1 - i]
  {
    seq(|s|, i requires 0 <= i < |s| => s[|s| - 1 - i])
  }

  /** Whether the first criterion of a space-separated sort string, the key Mongo
      compares first, is `-createdAt`: the string is that criterion alone or starts
      with it and a space. */
  predicate LedByNewest(sort: string) {
    sort == DefaultSort || DefaultSort + " " <= sort
  }

  /** The order a sort string imposes. `createdAt` is distinct for every document and
      grows with insertion, so a sort led by it is decided by it alone: `-createdAt`
      first gives the creation order reversed and `createdAt` first gives creation
      order. A sort led by any other key is not interpreted and keeps natural order. */
  function Sorted<T>(s: seq<T>, sort: string): (r: seq<T>)
    ensures multiset(r) == multiset(s)
    ensures |r| == |s|
    ensures LedByNewest(sort) ==> r == Reverse(s)
    ensures !LedByNewest(sort) ==> r == s
  {
    if LedByNewest(sort) then
      ReverseIsPermutation(s);
      Reverse(s)
    else s
  }

  lemma {:induction false} ReverseIsPermutation<T>(s: seq<T>)
    ensures multiset(Reverse(s)) == multiset(s)
  {
    if s != [] {
      var n := |s|;
      ReverseIsPermutation(s[1..]);
      assert Reverse(s) == Reverse(s[1..]) + [s[0]];
      assert s == [s[0]] + s[1..];
    }
  }

  /** `paginate(filter, options)` over the documents the filter selects. */
  function Paginate<T>(matching: seq<T>, options: Options): (r: Page<T>)
    ensures r.pagination.page == PageOf(options.page) >= 1
    ensures r.pagination.limit == LimitOf(options.limit) >= 1
    ensures r.pagination.totalResults == |matching|
    ensures |r.results| <= r.pagination.limit
    ensures multiset(r.results) <= multiset(matching)
    ensures forall x :: x in r.results ==> x in matching
    ensures r.pagination.totalPages == CeilDiv(r.pagination.totalResults, r.pagination.limit)
    ensures r.pagination.totalPages * r.pagination.limit >= r.pagination.totalResults
    ensures r.pagination.totalPages == 0 <==> matching == []
    ensures var skip := Skip(r.pagination.page, r.pagination.limit);
      |r.results| == (if skip >= |matching| then 0 else Min(r.pagination.limit, |matching| - skip))
    ensures options.sortBy.None? ==>
      r.results == Window(Reverse(matching), Skip(r.pagination.page, r.pagination.limit), r.pagination.limit)
  {
    var sort := SortSpec(options.sortBy);
    var limit := LimitOf(options.limit);
    var page := PageOf(options.page);
    var skip := Skip(page, limit);
    var results := Window(Sorted(matching, sort), skip, limit);
    SortedWindow(matching, sort, skip, limit);
    assert options.sortBy.None? ==> Sorted(matching, sort) == Reverse(matching);
    Page(results, PageInfo(page, limit, CeilDiv(|matching|, limit), |matching|))
  }

  /** A window of any sort of the match is drawn from the match and is as long as the
      same window of the match itself. */
  lemma SortedWindow<T>(matching: seq<T>, sort: string, skip: nat, limit: nat)
    ensures var r := Window(Sorted(matching, sort), skip, limit);
      && |r| == (if skip >= |matching| then 0 else Min(limit, |matching| - skip))
      && multiset(r) <= multiset(matching)
      && forall x :: x in r ==> x in matching
  {
    var sorted := Sorted(matching, sort);
    WindowIsSubMultiset(sorted, skip, limit);
    var r := Window(sorted, skip, limit);
    forall x | x in r ensures x in matching {
      assert x in multiset(r);
    }
  }

  lemma WindowIsSubMultiset<T>(s: seq<T>, skip: nat, limit: nat)
    ensures multiset(Window(s, skip, limit)) <= multiset(s)
  {
    if skip < |s| {
      var e := Min(skip + limit, |s|);
      assert s == s[..skip] + s[skip..e] + s[e..];
    }
  }

  /** The `$count` stage: no output document at all when nothing matches. */
  function CountStage<T>(s: seq<T>): (out: seq<nat>)
    ensures |out| <= 1
    ensures out == [] <==> s == []
  {
    if s == [] then [] else [|s|]
  }

  /** `paginatedAggregation(pipeline, options)` over the documents the pipeline prefix
      yields: the count and data pipelines share that prefix. */
  function PaginatedAggregation<T>(prefix: seq<T>, options: Options): (r: Page<T>)
    ensures r.pagination.page == AggPage(options.page) >= 1
    ensures r.pagination.limit == AggLimit(options.limit) >= 1
    ensures r.pagination.totalResults == |prefix|
    ensures r.results == Window(prefix, Skip(r.pagination.page, r.pagination.limit), r.pagination.limit)
    ensures forall x :: x in r.results ==> x in prefix
    ensures r.pagination.totalPages == CeilDiv(r.pagination.totalResults, r.pagination.limit)
    ensures r.pagination.totalPages * r.pagination.limit >= r.pagination.totalResults
    ensures r.pagination.totalPages == 0 <==> prefix == []
  {
    var page := AggPage(options.page);
    var limit := AggLimit(options.limit);
    var skip := Skip(page, limit);
    var counted := CountStage(prefix);
    var totalResults := if |counted| > 0 then counted[0] else 0;
    Page(Window(prefix, skip, limit), PageInfo(page, limit, CeilDiv(totalResults, limit), totalResults))
  }

  /** The first `n` pages of `s`, concatenated. */
  ghost function FirstPages<T>(s: seq<T>, limit: nat, n: nat): seq<T> {
    if n == 0 then [] else FirstPages(s, limit, n - 1) + Window(s, (n - 1) * limit, limit)
  }

  /** Consecutive pages tile the sequence: the first `n` pages are its first
      `n * limit` documents. */
  lemma {:induction false} FirstPagesArePrefix<T>(s: seq<T>, limit: nat, n: nat)
    ensures FirstPages(s, limit, n) == s[..Min(n * limit, |s|)]
  {
    if n > 0 {
      FirstPagesArePrefix(s, limit, n - 1);
      var k := (n - 1) * limit;
      assert k + limit == n * limit;
      PrefixThenWindow(s, k, limit);
    }
  }

  /** The first `k` documents followed by the window after them are the first
      `k + limit`. */
  lemma PrefixThenWindow<T>(s: seq<T>, k: nat, limit: nat)
    ensures s[..Min(k, |s|)] + Window(s, k, limit) == s[..Min(k + limit, |s|)]
  {
    var a := Min(k, |s|);
    var b := Min(k + limit, |s|);
    if k < |s| {
      assert Window(s, k, limit) == s[a..b];
    }
    assert s[..b] == s[..a] + s[a..b];
  }

  lemma MulMonotone(a: int, b: int, c: nat)
    requires a <= b
    ensures a * c <= b * c
  {
    assert b * c - a * c == (b - a) * c;
  }

  /** The pages `1..totalPages` hold every matching document exactly once, in order. */
  lemma PagesTile<T>(s: seq<T>, limit: int)
    requires limit >= 1
    ensures FirstPages(s, limit, CeilDiv(|s|, limit)) == s
  {
    var n := CeilDiv(|s|, limit);
    FirstPagesArePrefix(s, limit, n);
    assert Min(n * limit, |s|) == |s|;
  }

  /** A page is empty exactly when it lies past `totalPages`. */
  lemma PageEmptyIffPastEnd<T>(s: seq<T>, limit: int, page: int)
    requires limit >= 1 && page >= 1
    ensures Window(s, Skip(page, limit), limit) == [] <==> page > CeilDiv(|s|, limit)
  {
    var n := CeilDiv(|s|, limit);
    var skip := Skip(page, limit);
    assert skip == (page - 1) * limit;
    if page <= n {
      MulMonotone(page - 1, n - 1, limit);
      assert skip < |s|;
    } else {
      MulMonotone(n, page - 1, limit);
      assert skip >= |s|;
    }
  }

  // ---------------------------------------------------------------------------
  // sortBy parsing

  /** `String.prototype.split` with a one-character separator: always at least one
      part, and no part holds the separator. */
  function Split(s: string, sep: char): (parts: seq<string>)
    ensures |parts| >= 1
    ensures forall i :: 0 <= i < |parts| ==> sep !in parts[i]
    decreases |s|
  {
    if s == [] then [""]
    else
      var rest := Split(s[1..], sep);
      if s[0] == sep then [""] + rest
      else [[s[0]] + rest[0]] + rest[1..]
  }

  /** `Array.prototype.join`. */
  function Join(parts: seq<string>, sep: string): string {
    if |parts| == 0 then ""
    else if |parts| == 1 then parts[0]
    else parts[0] + sep + Join(parts[1..], sep)
  }

  /** Joining the parts with the separator gives back the split string. */
  lemma {:induction false} JoinSplit(s: string, sep: char)
    ensures Join(Split(s, sep), [sep]) == s
  {
    if s != [] {
      JoinSplit(s[1..], sep);
      var rest := Split(s[1..], sep);
      if s[0] != sep {
        if |rest| > 1 {
          assert Join(rest, [sep]) == rest[0] + [sep] + Join(rest[1..], [sep]);
          assert ([s[0]] + rest[0]) + [sep] + Join(rest[1..], [sep]) == [s[0]] + Join(rest, [sep]);
        }
      }
    }
  }

  lemma {:induction false} SplitPrefix(p: string, t: string, sep: char)
    requires sep !in p
    ensures Split(p + [sep] + t, sep) == [p] + Split(t, sep)
    decreases |p|
  {
    if p == [] {
      assert p + [sep] + t == [sep] + t;
      assert ([sep] + t)[1..] == t;
    } else {
      SplitPrefix(p[1..], t, sep);
      assert (p + [sep] + t)[1..] == p[1..] + [sep] + t;
      assert [p[0]] + p[1..] == p;
    }
  }

  lemma {:induction false} SplitNoSeparator(p: string, sep: char)
    requires sep !in p
    ensures Split(p, sep) == [p]
    decreases |p|
  {
    if p != [] {
      SplitNoSeparator(p[1..], sep);
      assert [p[0]] + p[1..] == p;
    }
  }

  /** Splitting a join of separator-free parts gives back the parts. */
  lemma {:induction false} SplitJoin(parts: seq<string>, sep: char)
    requires |parts| >= 1
    requires forall i :: 0 <= i < |parts| ==> sep !in parts[i]
    ensures Split(Join(parts, [sep]), sep) == parts
  {
    if |parts| == 1 {
      SplitNoSeparator(parts[0], sep);
    } else {
      SplitJoin(parts[1..], sep);
      SplitPrefix(parts[0], Join(parts[1..], [sep]), sep);
    }
  }

  /** A character missing from a string is missing from every part of its split, and a
      string without the separator is its own single part. */
  lemma {:induction false} SplitWithout(s: string, sep: char, c: char)
    ensures sep !in s ==> Split(s, sep) == [s]
    ensures c !in s ==> forall i :: 0 <= i < |Split(s, sep)| ==> c !in Split(s, sep)[i]
    decreases |s|
  {
    if sep !in s {
      SplitNoSeparator(s, sep);
    }
    if s != [] {
      SplitWithout(s[1..], sep, c);
      assert s == [s[0]] + s[1..];
    }
  }

  /** One `key:order` option: `const [key, order] = option.split(':')`, then a '-'
      prefix exactly when `order === 'desc'`. An option without a colon is taken whole,
      and the criterion holds a space only if the option does. */
  function Criterion(option: string): (c: string)
    ensures ':' !in option ==> c == option
    ensures ' ' !in option ==> ' ' !in c
  {
    var fields := Split(option, ':');
    var descending := |fields| > 1 && fields[1] == "desc";
    SplitWithout(option, ':', ' ');
    (if descending then "-" else "") + fields[0]
  }

  function Criteria(options: seq<string>): (criteria: seq<string>)
    ensures |criteria| == |options|
  {
    seq(|options|, i requires 0 <= i < |options| => Criterion(options[i]))
  }

  /** The sort string `paginate` hands to `.sort()`. An absent or empty `sortBy` is
      falsy and gives `-createdAt`; otherwise Mongo reads back, space by space, one
      criterion per comma-separated option, in order. */
  function SortSpec(sortBy: Option<string>): (sort: string)
    ensures sortBy.None? || sortBy.value == "" ==> sort == DefaultSort
    ensures sortBy.Some? && sortBy.value != "" && ' ' !in sortBy.value ==>
      Split(sort, ' ') == Criteria(Split(sortBy.value, ','))
  {
    if sortBy.None? || sortBy.value == "" then DefaultSort
    else
      var criteria := Criteria(Split(sortBy.value, ','));
      SplitWithout(sortBy.value, ',', ' ');
      if ' ' in sortBy.value then Join(criteria, " ")
      else
        SplitJoin(criteria, ' ');
        Join(criteria, " ")
  }

  /** The `forEach`/`push` loop that builds the sorting criteria. */
  method ParseSortBy(sortBy: Option<string>) returns (sort: string)
    ensures sort == SortSpec(sortBy)
  {
    if sortBy.Some? && sortBy.value != "" {
      var options := Split(sortBy.value, ',');
      var criteria: seq<string> := [];
      for i := 0 to |options|
        invariant criteria == Criteria(options[..i])
      {
        criteria := criteria + [Criterion(options[i])];
      }
      assert options[..|options|] == options;
      sort := Join(criteria, " ");
    } else {
      sort := DefaultSort;
    }
  }

  /** A sort key as a client writes it. */
  datatype SortKey = SortKey(key: string, descending: bool)

  function FormatKey(k: SortKey): string {
    k.key + ":" + (if k.descending then "desc" else "asc")
  }

  function Format(keys: seq<SortKey>): string {
    Join(seq(|keys|, i requires 0 <= i < |keys| => FormatKey(keys[i])), ",")
  }

  function Expected(k: SortKey): string {
    if k.descending then "-" + k.key else k.key
  }

  /** An option without a colon is an ascending key taken whole. */
  lemma CriterionWithoutOrder(key: string)
    requires ':' !in key
    ensures Criterion(key) == key
  {
    SplitNoSeparator(key, ':');
  }

  /** A `key:order` option gets a '-' prefix exactly when the order is "desc". */
  lemma CriterionWithOrder(key: string, order: string)
    requires ':' !in key && ':' !in order
    ensures Criterion(key + ":" + order) == (if order == "desc" then "-" + key else key)
  {
    SplitPrefix(key, order, ':');
    SplitNoSeparator(order, ':');
  }

  /** Parsing a well-formed `sortBy` yields one criterion per key, in order, each
      prefixed with '-' exactly when the key is descending, joined by single spaces. */
  lemma SortSpecOfFormat(keys: seq<SortKey>)
    requires |keys| >= 1
    requires forall i :: 0 <= i < |keys| ==> ':' !in keys[i].key && ',' !in keys[i].key
    ensures SortSpec(Some(Format(keys))) ==
      Join(seq(|keys|, i requires 0 <= i < |keys| => Expected(keys[i])), " ")
  {
    var parts := seq(|keys|, i requires 0 <= i < |keys| => FormatKey(keys[i]));
    forall i | 0 <= i < |parts| ensures ',' !in parts[i] {
      assert parts[i] == keys[i].key + ":" + (if keys[i].descending then "desc" else "asc");
    }
    SplitJoin(parts, ',');
    forall i | 0 <= i < |keys| ensures Criterion(parts[i]) == Expected(keys[i]) {
      CriterionWithOrder(keys[i].key, if keys[i].descending then "desc" else "asc");
    }
    assert Criteria(parts) == seq(|keys|, i requires 0 <= i < |keys| => Expected(keys[i]));
  }

  /** With no `sortBy` the sort is newest first. */
  lemma DefaultSortIsNewestFirst<T>(s: seq<T>)
    ensures Sorted(s, SortSpec(None)) == Reverse(s)
    ensures |s| > 0 ==> Sorted(s, SortSpec(None))[0] == s[|s| - 1]
  {
  }

  /** A `sortBy` whose first key is `createdAt` orders the page by creation alone:
      newest first when that key is descending, oldest first when it is ascending,
      whatever keys follow. */
  lemma LeadingCreatedAtDecides<T>(s: seq<T>, keys: seq<SortKey>)
    requires |keys| >= 1 && keys[0].key == "createdAt"
    requires forall i :: 0 <= i < |keys| ==> ':' !in keys[i].key && ',' !in keys[i].key
    ensures Sorted(s, SortSpec(Some(Format(keys)))) == if keys[0].descending then Reverse(s) else s
  {
    var expected := seq(|keys|, i requires 0 <= i < |keys| => Expected(keys[i]));
    SortSpecOfFormat(keys);
    var sort := Join(expected, " ");
    JoinHead(expected, " ");
    assert expected[0] == Expected(keys[0]);
    if keys[0].descending {
      NewestCriterion(keys[0]);
    } else {
      assert sort[0] == 'c' != DefaultSort[0];
    }
  }

  /** `createdAt:desc` parses to the default criterion. */
  lemma NewestCriterion(k: SortKey)
    requires k.key == "createdAt" && k.descending
    ensures Expected(k) == DefaultSort
  {
  }

  /** A join starts with its first part, followed by the separator when more parts
      come. */
  lemma JoinHead(parts: seq<string>, sep: string)
    requires |parts| >= 1
    ensures |parts| == 1 ==> Join(parts, sep) == parts[0]
    ensures |parts| > 1 ==> parts[0] + sep <= Join(parts, sep)
  {
    if |parts| > 1 {
      assert Join(parts, sep) == parts[0] + sep + Join(parts[1..], sep);
    }
  }
}
