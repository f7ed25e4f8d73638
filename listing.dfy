/**
  `GET /blood-group`: how the query string becomes a store filter, a sort order and
  a page window, and what the response envelope holds. The store's regular
  expression matching and its ordering of field values are parameters: `matches`
  answers whether a case-insensitive pattern matches a string, `keyLe` whether one
  sort key may come before another in ascending order.
*/
module Listing {
  import opened Wrappers
  import opened Documents

  type Positive = n: int | n > 0 witness 1

  /** The query string as received: every parameter may be absent. */
  datatype RawQuery = RawQuery(
    search: Option<string>,
    bloodGroup: Option<string>,
    sortField: Option<string>,
    sortOrder: Option<string>,
    page: Option<Positive>,
    limit: Option<Positive>)

  /** The query string after its defaults are filled in. */
  datatype ListQuery = ListQuery(
    search: string,
    bloodGroup: string,
    sortField: string,
    sortOrder: string,
    page: Positive,
    limit: Positive)

  const DefaultSortField: string := "Name"
  const DefaultSortOrder: string := "asc"
  const DefaultPage: Positive := 1
  const DefaultLimit: Positive := 20

  function GetOr<T>(o: Option<T>, default: T): T {
    match o
    case Some(v) => v
    case None => default
  }

  /** Destructuring with defaults: a parameter that is present is used as given,
      an absent one takes its default. */
  function Resolve(q: RawQuery): (r: ListQuery)
    ensures q.search.Some? ==> r.search == q.search.value
    ensures q.bloodGroup.Some? ==> r.bloodGroup == q.bloodGroup.value
    ensures q.sortField.Some? ==> r.sortField == q.sortField.value
    ensures q.sortOrder.Some? ==> r.sortOrder == q.sortOrder.value
    ensures q.page.Some? ==> r.page == q.page.value
    ensures q.limit.Some? ==> r.limit == q.limit.value
    ensures q.search.None? ==> r.search == ""
    ensures q.bloodGroup.None? ==> r.bloodGroup == ""
    ensures q.sortField.None? ==> r.sortField == "Name"
    ensures q.sortOrder.None? ==> r.sortOrder == "asc"
    ensures q.page.None? ==> r.page == 1
    ensures q.limit.None? ==> r.limit == 20
  {
    ListQuery(
      GetOr(q.search, ""),
      GetOr(q.bloodGroup, ""),
      GetOr(q.sortField, DefaultSortField),
      GetOr(q.sortOrder, DefaultSortOrder),
      GetOr(q.page, DefaultPage),
      GetOr(q.limit, DefaultLimit))
  }

  /** With no parameters at all: no search text, no blood-group filter, ascending
      by `Name`, first page of twenty. */
  lemma ResolveDefaults()
    ensures Resolve(RawQuery(None, None, None, None, None, None)) ==
            ListQuery("", "", "Name", "asc", 1, 20)
  {
  }

  // ---------------------------------------------------------------------------
  // The filter document
  // ---------------------------------------------------------------------------

  /** The subset of the store's query language the handler builds. */
  datatype Filter =
    | And(all: seq<Filter>)
    | Or(any: seq<Filter>)
    | Regex(field: string, pattern: string)   // { field: { $regex: pattern, $options: "i" } }
    | Equals(field: string, value: Value)     // { field: value }

  /** Whether a document satisfies a filter. A regular expression only matches a
      field that is present and holds a string. */
  predicate Eval(f: Filter, doc: Doc, matches: (string, string) -> bool)
    decreases f
  {
    match f
    case And(fs) => forall i :: 0 <= i < |fs| ==> Eval(fs[i], doc, matches)
    case Or(fs) => exists i :: 0 <= i < |fs| && Eval(fs[i], doc, matches)
    case Regex(field, pattern) => field in doc && doc[field].Str? && matches(pattern, doc[field].s)
    case Equals(field, v) => field in doc && doc[field] == v
  }

  /** The query document of the handler: a search on `Name` or `Blood_Group`, and an
      exact `Blood_Group` clause only when `bloodGroup` is non-empty. */
  function BuildQuery(search: string, bloodGroup: string): (f: Filter)
    ensures f.And? && |f.all| == if bloodGroup == "" then 1 else 2
  {
    And([Or([Regex("Name", search), Regex("Blood_Group", search)])] +
        (if bloodGroup != "" then [Equals("Blood_Group", Str(bloodGroup))] else []))
  }

  /** `pattern` matches the string held in `field`. */
  predicate TextMatches(doc: Doc, field: string, pattern: string, matches: (string, string) -> bool) {
    field in doc && doc[field].Str? && matches(pattern, doc[field].s)
  }

  /** Which donors a search selects, stated directly. */
  predicate Selected(doc: Doc, search: string, bloodGroup: string, matches: (string, string) -> bool) {
    && (TextMatches(doc, "Name", search, matches) || TextMatches(doc, "Blood_Group", search, matches))
    && (bloodGroup == "" || ("Blood_Group" in doc && doc["Blood_Group"] == Str(bloodGroup)))
  }

  /** The query document selects exactly the donors `Selected` describes. */
  lemma QueryMeaning(search: string, bloodGroup: string, doc: Doc, matches: (string, string) -> bool)
    ensures Eval(BuildQuery(search, bloodGroup), doc, matches) <==> Selected(doc, search, bloodGroup, matches)
  {
    var f := BuildQuery(search, bloodGroup);
    var or := f.all[0];
    assert Eval(or, doc, matches) <==>
           Eval(or.any[0], doc, matches) || Eval(or.any[1], doc, matches);
    if bloodGroup != "" {
      assert f.all[1] == Equals("Blood_Group", Str(bloodGroup));
    }
  }

  /** The documents of `rs` that satisfy `f`, in their original order. */
  function Matching(rs: seq<Record>, f: Filter, matches: (string, string) -> bool): (r: seq<Record>)
    ensures |r| <= |rs|
    ensures forall x :: multiset(r)[x] == if Eval(f, x.doc, matches) then multiset(rs)[x] else 0
    ensures forall x :: x in r <==> x in rs && Eval(f, x.doc, matches)
  {
    if rs == [] then []
    else
      var rest := Matching(rs[1..], f, matches);
      assert rs == [rs[0]] + rs[1..];
      if Eval(f, rs[0].doc, matches) then [rs[0]] + rest else rest
  }

  // ---------------------------------------------------------------------------
  // Sorting
  // ---------------------------------------------------------------------------

  datatype Direction = Ascending | Descending

  /** `sortOrder === "asc" ? 1 : -1`: only the exact string "asc" sorts upwards. */
  function DirectionOf(sortOrder: string): (d: Direction)
    ensures d == Ascending <==> sortOrder == "asc"
    ensures d == Descending <==> sortOrder != "asc"
  {
    if sortOrder == "asc" then Ascending else Descending
  }

  /** The sort key of a record: its identifier for `_id`, otherwise the field's
      value, or nothing when the field is missing. */
  function KeyOf(r: Record, field: string): Option<Value> {
    if field == "_id" then Some(Str(r.id))
    else if field in r.doc then Some(r.doc[field])
    else None
  }

  /** `a` may precede `b` when sorting on `field` in direction `dir`. */
  predicate InOrder(a: Record, b: Record, field: string, dir: Direction,
                    keyLe: (Option<Value>, Option<Value>) -> bool) {
    match dir
    case Ascending => keyLe(KeyOf(a, field), KeyOf(b, field))
    case Descending => keyLe(KeyOf(b, field), KeyOf(a, field))
  }

  /** The store's key ordering is total and transitive. */
  ghost predicate TotalPreorder(keyLe: (Option<Value>, Option<Value>) -> bool) {
    && (forall a, b :: keyLe(a, b) || keyLe(b, a))
    && (forall a, b, c :: keyLe(a, b) && keyLe(b, c) ==> keyLe(a, c))
  }

  predicate Ordered(s: seq<Record>, field: string, dir: Direction,
                    keyLe: (Option<Value>, Option<Value>) -> bool) {
    forall i, j :: 0 <= i < j < |s| ==> InOrder(s[i], s[j], field, dir, keyLe)
  }

  function InsertInOrder(x: Record, s: seq<Record>, field: string, dir: Direction,
                         keyLe: (Option<Value>, Option<Value>) -> bool): (r: seq<Record>)
    ensures multiset(r) == multiset(s) + multiset{x}
  {
    if s == [] || InOrder(x, s[0], field, dir, keyLe) then [x] + s
    else
      assert s == [s[0]] + s[1..];
      [s[0]] + InsertInOrder(x, s[1..], field, dir, keyLe)
  }

  /** `.sort({ [field]: dir })`: the same records, rearranged. */
  function SortBy(s: seq<Record>, field: string, dir: Direction,
                  keyLe: (Option<Value>, Option<Value>) -> bool): (r: seq<Record>)
    ensures multiset(r) == multiset(s)
  {
    if s == [] then []
    else
      assert s == [s[0]] + s[1..];
      InsertInOrder(s[0], SortBy(s[1..], field, dir, keyLe), field, dir, keyLe)
  }

  /** The key ordering makes `InOrder` total... */
  lemma InOrderTotal(a: Record, b: Record, field: string, dir: Direction,
                     keyLe: (Option<Value>, Option<Value>) -> bool)
    requires TotalPreorder(keyLe)
    ensures InOrder(a, b, field, dir, keyLe) || InOrder(b, a, field, dir, keyLe)
  {
  }

  /** ... and transitive. */
  lemma InOrderTransitive(a: Record, b: Record, c: Record, field: string, dir: Direction,
                          keyLe: (Option<Value>, Option<Value>) -> bool)
    requires TotalPreorder(keyLe)
    requires InOrder(a, b, field, dir, keyLe) && InOrder(b, c, field, dir, keyLe)
    ensures InOrder(a, c, field, dir, keyLe)
  {
  }

  /** Every record of `s` may follow its first record. */
  predicate FirstLeads(y: Record, s: seq<Record>, field: string, dir: Direction,
                       keyLe: (Option<Value>, Option<Value>) -> bool) {
    forall e :: e in s ==> InOrder(y, e, field, dir, keyLe)
  }

  lemma OrderedCons(y: Record, s: seq<Record>, field: string, dir: Direction,
                    keyLe: (Option<Value>, Option<Value>) -> bool)
    requires Ordered(s, field, dir, keyLe) && FirstLeads(y, s, field, dir, keyLe)
    ensures Ordered([y] + s, field, dir, keyLe)
  {
  }

  lemma {:induction false} InsertKeepsOrdered(x: Record, s: seq<Record>, field: string, dir: Direction,
                                              keyLe: (Option<Value>, Option<Value>) -> bool)
    requires TotalPreorder(keyLe)
    requires Ordered(s, field, dir, keyLe)
    ensures Ordered(InsertInOrder(x, s, field, dir, keyLe), field, dir, keyLe)
  {
    if s == [] {
    } else if InOrder(x, s[0], field, dir, keyLe) {
      forall e | e in s ensures InOrder(x, e, field, dir, keyLe) {
        var k :| 0 <= k < |s| && s[k] == e;
        if k > 0 {
          InOrderTransitive(x, s[0], e, field, dir, keyLe);
        }
      }
      OrderedCons(x, s, field, dir, keyLe);
    } else {
      var tail := InsertInOrder(x, s[1..], field, dir, keyLe);
      InsertKeepsOrdered(x, s[1..], field, dir, keyLe);
      InOrderTotal(x, s[0], field, dir, keyLe);
      forall e | e in tail ensures InOrder(s[0], e, field, dir, keyLe) {
        assert e in multiset(tail);
        if e != x {
          assert e in multiset(s[1..]);
          var k :| 0 <= k < |s[1..]| && s[1..][k] == e;
          assert s[k + 1] == e;
        }
      }
      OrderedCons(s[0], tail, field, dir, keyLe);
    }
  }

  /** Under a total preorder on keys, the sorted listing is in order. */
  lemma {:induction false} SortByOrdered(s: seq<Record>, field: string, dir: Direction,
                                         keyLe: (Option<Value>, Option<Value>) -> bool)
    requires TotalPreorder(keyLe)
    ensures Ordered(SortBy(s, field, dir, keyLe), field, dir, keyLe)
  {
    if s != [] {
      SortByOrdered(s[1..], field, dir, keyLe);
      InsertKeepsOrdered(s[0], SortBy(s[1..], field, dir, keyLe), field, dir, keyLe);
    }
  }

  // ---------------------------------------------------------------------------
  // Pages
  // ---------------------------------------------------------------------------

  function Min(a: int, b: int): int { if a <= b then a else b }

  /** `.skip(n)` */
  function Drop(s: seq<Record>, n: nat): seq<Record> {
    if n >= |s| then [] else s[n..]
  }

  /** `.limit(n)` */
  function Take(s: seq<Record>, n: nat): seq<Record> {
    if n >= |s| then s else s[..n]
  }

  /** `(page - 1) * limit`: how many records precede a page. */
  function Offset(page: Positive, limit: Positive): (n: nat)
    ensures page == 1 ==> n == 0
    ensures n + limit == page * limit
  {
    (page - 1) * limit
  }

  /** The page window: skip `(page - 1) * limit` records, keep at most `limit`. The
      page is the run of `s` that starts at the skip offset. */
  function Paginate(s: seq<Record>, page: Positive, limit: Positive): (r: seq<Record>)
    ensures |r| <= limit
    ensures |r| == if Offset(page, limit) < |s| then Min(limit, |s| - Offset(page, limit)) else 0
    ensures forall i :: 0 <= i < |r| ==> Offset(page, limit) + i < |s| && r[i] == s[Offset(page, limit) + i]
  {
    Take(Drop(s, Offset(page, limit)), limit)
  }

  /** `Math.ceil(total / limit)` for a positive integer limit. */
  function CeilDiv(total: nat, limit: Positive): (pages: nat)
    ensures total == 0 ==> pages == 0
    ensures total > 0 ==> (pages - 1) * limit < total <= pages * limit
  {
    var q := (total + limit - 1) / limit;
    var m := (total + limit - 1) % limit;
    assert total + limit - 1 == q * limit + m;
    q
  }

  /** A page has records exactly when its number is between 1 and `totalPages`. */
  lemma PageNonEmptyIff(s: seq<Record>, page: Positive, limit: Positive)
    ensures Paginate(s, page, limit) != [] <==> page <= CeilDiv(|s|, limit)
  {
    var pages := CeilDiv(|s|, limit);
    if page <= pages {
      assert (page - 1) * limit <= (pages - 1) * limit;
    } else {
      assert (page - 1) * limit >= pages * limit;
    }
  }

  /** Every record of the listing appears on exactly the page its position gives:
      record `k` is entry `k % limit` of page `k / limit + 1`, a page within
      `totalPages`. */
  lemma RecordOnItsPage(s: seq<Record>, limit: Positive, k: nat)
    requires k < |s|
    ensures k / limit + 1 <= CeilDiv(|s|, limit)
    ensures k % limit < |Paginate(s, k / limit + 1, limit)|
    ensures Paginate(s, k / limit + 1, limit)[k % limit] == s[k]
  {
    var page: Positive := k / limit + 1;
    assert (page - 1) * limit + k % limit == k;
    PageNonEmptyIff(s, page, limit);
  }

  /** Fifteen matching donors, ten per page: the second page holds the last five
      and there are two pages. */
  lemma FifteenRecordsTwoPages(s: seq<Record>)
    requires |s| == 15
    ensures |Paginate(s, 2, 10)| == 5 && Paginate(s, 2, 10) == s[10..]
    ensures CeilDiv(|s|, 10) == 2
  {
  }

  // ---------------------------------------------------------------------------
  // The response
  // ---------------------------------------------------------------------------

  /** The body of a successful reply. */
  datatype Envelope = Envelope(total: nat, page: Positive, limit: Positive, totalPages: nat,
                               data: seq<Record>)

  /** The documents a query selects from `rs`, in the store's order. */
  function Found(rs: seq<Record>, q: ListQuery, matches: (string, string) -> bool): seq<Record> {
    Matching(rs, BuildQuery(q.search, q.bloodGroup), matches)
  }

  /** The sorted listing the page is cut from. */
  function SortedFound(rs: seq<Record>, q: ListQuery, matches: (string, string) -> bool,
                       keyLe: (Option<Value>, Option<Value>) -> bool): seq<Record> {
    SortBy(Found(rs, q, matches), q.sortField, DirectionOf(q.sortOrder), keyLe)
  }

  /** Every record on a page is a stored record the query selects. */
  lemma PageDrawnFromFound(rs: seq<Record>, q: ListQuery, matches: (string, string) -> bool,
                           keyLe: (Option<Value>, Option<Value>) -> bool, x: Record)
    requires x in Paginate(SortedFound(rs, q, matches, keyLe), q.page, q.limit)
    ensures x in rs && Selected(x.doc, q.search, q.bloodGroup, matches)
  {
    var sorted := SortedFound(rs, q, matches, keyLe);
    var page := Paginate(sorted, q.page, q.limit);
    var k :| 0 <= k < |page| && page[k] == x;
    assert x in sorted by {
      assert page[k] == sorted[Offset(q.page, q.limit) + k];
    }
    var found := Found(rs, q, matches);
    assert x in found by {
      assert x in multiset(sorted);
    }
    assert x in rs && Eval(BuildQuery(q.search, q.bloodGroup), x.doc, matches);
    QueryMeaning(q.search, q.bloodGroup, x.doc, matches);
  }

  /** The envelope for one request over the records `rs`: `total` counts every
      selected donor whatever the page, `totalPages` is its ceiling over `limit`, and
      `data` is the window of the sorted listing that starts at offset
      `(page - 1) * limit` and holds up to `limit` of the selected donors. */
  function Respond(rs: seq<Record>, q: ListQuery, matches: (string, string) -> bool,
                   keyLe: (Option<Value>, Option<Value>) -> bool): (e: Envelope)
    ensures e.total == |Found(rs, q, matches)|
    ensures e.page == q.page && e.limit == q.limit
    ensures e.totalPages == CeilDiv(e.total, q.limit)
    ensures |e.data| <= q.limit
    ensures |e.data| == if Offset(q.page, q.limit) < e.total
                        then Min(q.limit, e.total - Offset(q.page, q.limit)) else 0
    ensures forall x :: x in e.data ==> x in rs && Selected(x.doc, q.search, q.bloodGroup, matches)
    ensures forall i :: 0 <= i < |e.data| ==>
              && Offset(q.page, q.limit) + i < |SortedFound(rs, q, matches, keyLe)|
              && e.data[i] == SortedFound(rs, q, matches, keyLe)[Offset(q.page, q.limit) + i]
  {
    var found := Found(rs, q, matches);
    var sorted := SortedFound(rs, q, matches, keyLe);
    assert |sorted| == |multiset(sorted)| == |multiset(found)| == |found|;
    var data := Paginate(sorted, q.page, q.limit);
    assert forall x :: x in data ==> x in rs && Selected(x.doc, q.search, q.bloodGroup, matches) by {
      forall x | x in data ensures x in rs && Selected(x.doc, q.search, q.bloodGroup, matches) {
        PageDrawnFromFound(rs, q, matches, keyLe, x);
      }
    }
    Envelope(|found|, q.page, q.limit, CeilDiv(|found|, q.limit), data)
  }

  /** A page of an ordered listing is ordered. */
  lemma PaginateKeepsOrdered(s: seq<Record>, page: Positive, limit: Positive, field: string, dir: Direction,
                             keyLe: (Option<Value>, Option<Value>) -> bool)
    requires Ordered(s, field, dir, keyLe)
    ensures Ordered(Paginate(s, page, limit), field, dir, keyLe)
  {
  }

  /** Under a total preorder on keys, the page is in the requested order. */
  lemma RespondOrdered(rs: seq<Record>, q: ListQuery, matches: (string, string) -> bool,
                       keyLe: (Option<Value>, Option<Value>) -> bool)
    requires TotalPreorder(keyLe)
    ensures Ordered(Respond(rs, q, matches, keyLe).data, q.sortField, DirectionOf(q.sortOrder), keyLe)
  {
    SortByOrdered(Found(rs, q, matches), q.sortField, DirectionOf(q.sortOrder), keyLe);
    PaginateKeepsOrdered(SortedFound(rs, q, matches, keyLe), q.page, q.limit,
                         q.sortField, DirectionOf(q.sortOrder), keyLe);
  }
}
