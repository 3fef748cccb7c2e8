/**
  The meaning, over an in-memory table, of the Mongoose queries the contact
  controller issues: filter documents (whose `tenantId` is mandatory),
  `find`/`countDocuments`, `findOne`, `sort({ createdAt: -1 })`,
  `skip`/`limit`, and the `$group`/`$sort`/`$limit` aggregation.
 */
module ContactQueries {
  import opened Wrappers
  import opened Text
  import opened ContactModel

  /**
    A contact query document. Every query carries a tenant; the other
    conditions are optional and conjoined with it.
   */
  datatype Filter = Filter(
    tenantId: TenantId,
    id: Option<ContactId>,           // `_id`
    email: Option<string>,           // `email`
    activeOnly: bool,                // `isActive: true`
    search: Option<string>,          // `$or` of case-insensitive matches
    tag: Option<string>,             // `tags: { $in: [tag] }`
    createdSince: Option<int>,       // `createdAt: { $gte: ... }`
    hasCompany: bool,                // `company: { $exists: true, $ne: "" }`
    company: Option<string>)         // `company` equal to a value

  /** `{ tenantId }`: every record of a tenant, active or not. */
  function TenantFilter(t: TenantId): Filter {
    Filter(t, None, None, false, None, None, None, false, None)
  }

  /** `{ tenantId, isActive: true }`. */
  function ActiveFilter(t: TenantId): Filter {
    TenantFilter(t).(activeOnly := true)
  }

  /** `{ _id, tenantId, isActive: true }`: the lookup of get, update and delete. */
  function ByIdFilter(t: TenantId, id: ContactId): Filter {
    ActiveFilter(t).(id := Some(id))
  }

  /** `{ tenantId, email }`: the duplicate check of create (active or not). */
  function EmailFilter(t: TenantId, email: string): Filter {
    TenantFilter(t).(email := Some(email))
  }

  /** Whether a contact matches the free-text search on name, email, company or phone. */
  predicate SearchHit(c: Contact, pattern: string): (b: bool)
    ensures b <==> || Occurs(Lower(c.data.name), Lower(pattern))
                   || Occurs(Lower(c.data.email), Lower(pattern))
                   || (c.data.company.Some? && Occurs(Lower(c.data.company.value), Lower(pattern)))
                   || Occurs(Lower(c.data.phone), Lower(pattern))
    ensures pattern == [] ==> b
  {
    || MatchesIgnoringCase(c.data.name, pattern)
    || MatchesIgnoringCase(c.data.email, pattern)
    || (c.data.company.Some? && MatchesIgnoringCase(c.data.company.value, pattern))
    || MatchesIgnoringCase(c.data.phone, pattern)
  }

  /**
    Whether a record satisfies a query document. The tenant condition is always
    there; a filter with no other condition matches every record of its tenant.
   */
  predicate Matches(c: Contact, f: Filter): (b: bool)
    ensures b ==> c.tenantId == f.tenantId
    ensures f == TenantFilter(c.tenantId) ==> b
    ensures f.activeOnly && !c.isActive ==> !b
  {
    && c.tenantId == f.tenantId
    && (f.id.Some? ==> c.id == f.id.value)
    && (f.email.Some? ==> c.data.email == f.email.value)
    && (f.activeOnly ==> c.isActive)
    && (f.search.Some? ==> SearchHit(c, f.search.value))
    && (f.tag.Some? ==> f.tag.value in c.data.tags)
    && (f.createdSince.Some? ==> c.createdAt >= f.createdSince.value)
    && (f.hasCompany ==> c.data.company.Some? && c.data.company.value != [])
    && (f.company.Some? ==> c.data.company == f.company)
  }

  /** `find(filter)` before sorting: the matching records, in table order. */
  function Select(s: seq<Contact>, f: Filter): (r: seq<Contact>)
    ensures |r| <= |s|
    ensures forall c :: c in r <==> c in s && Matches(c, f)
  {
    if s == [] then []
    else (if Matches(s[0], f) then [s[0]] else []) + Select(s[1..], f)
  }

  /** All records of tenant `t`, active or not: everything tenant `t` can ever observe. */
  function Owned(s: seq<Contact>, t: TenantId): seq<Contact> {
    Select(s, TenantFilter(t))
  }

  lemma {:induction false} SelectAppend(s: seq<Contact>, c: Contact, f: Filter)
    ensures Select(s + [c], f) == Select(s, f) + (if Matches(c, f) then [c] else [])
  {
    if s != [] {
      assert (s + [c])[1..] == s[1..] + [c];
      SelectAppend(s[1..], c, f);
    }
  }

  /** Replacing a record of another tenant does not change what a query of `f.tenantId` selects. */
  lemma {:induction false} SelectReplaceForeign(s: seq<Contact>, i: nat, c: Contact, f: Filter)
    requires i < |s|
    requires s[i].tenantId != f.tenantId && c.tenantId != f.tenantId
    ensures Select(s[i := c], f) == Select(s, f)
  {
    if i > 0 {
      assert s[i := c][1..] == s[1..][i - 1 := c];
      SelectReplaceForeign(s[1..], i - 1, c, f);
    } else {
      assert s[i := c][1..] == s[1..];
    }
  }

  /** Every query of a tenant sees only that tenant's records: it is a query on `Owned`. */
  lemma {:induction false} SelectThroughOwned(s: seq<Contact>, f: Filter)
    ensures Select(s, f) == Select(Owned(s, f.tenantId), f)
  {
    if s != [] {
      SelectThroughOwned(s[1..], f);
      var t := f.tenantId;
      if s[0].tenantId == t {
        var o := Owned(s, t);
        assert o == [s[0]] + Owned(s[1..], t);
        assert o[0] == s[0] && o[1..] == Owned(s[1..], t);
      } else {
        assert !Matches(s[0], TenantFilter(t)) && !Matches(s[0], f);
        assert Owned(s, t) == Owned(s[1..], t);
        assert Select(s, f) == Select(s[1..], f);
      }
    }
  }

  /** A stronger filter selects no more records than a weaker one. */
  lemma {:induction false} SelectMonotone(s: seq<Contact>, weak: Filter, strong: Filter)
    requires forall c :: Matches(c, strong) ==> Matches(c, weak)
    ensures |Select(s, strong)| <= |Select(s, weak)|
  {
    if s != [] {
      SelectMonotone(s[1..], weak, strong);
    }
  }

  /** The position of the first record matching `{ _id, tenantId, isActive: true }`. */
  function Locate(s: seq<Contact>, t: TenantId, id: ContactId): (r: Option<nat>)
    ensures r.Some? ==> r.value < |s| && Matches(s[r.value], ByIdFilter(t, id))
    ensures r.Some? ==> forall j :: 0 <= j < r.value ==> !Matches(s[j], ByIdFilter(t, id))
    ensures r.None? <==> forall j :: 0 <= j < |s| ==> !Matches(s[j], ByIdFilter(t, id))
  {
    if s == [] then None
    else if Matches(s[0], ByIdFilter(t, id)) then Some(0)
    else match Locate(s[1..], t, id)
      case None => None
      case Some(k) => Some(k + 1)
  }

  /** `findOne({ _id, tenantId, isActive: true })`. */
  function FindOne(s: seq<Contact>, t: TenantId, id: ContactId): (r: Option<Contact>)
    ensures r.Some? ==> r.value in s && r.value.id == id && r.value.tenantId == t && r.value.isActive
    ensures r.None? <==> forall c :: c in s ==> !(c.id == id && c.tenantId == t && c.isActive)
  {
    match Locate(s, t, id)
    case None => None
    case Some(i) => Some(s[i])
  }

  /** `FindOne` is the first record that `Select` returns for the same filter. */
  lemma {:induction false} FindOneIsFirstSelected(s: seq<Contact>, t: TenantId, id: ContactId)
    ensures FindOne(s, t, id) == (if Select(s, ByIdFilter(t, id)) == [] then None
                                  else Some(Select(s, ByIdFilter(t, id))[0]))
  {
    if s != [] && !Matches(s[0], ByIdFilter(t, id)) {
      FindOneIsFirstSelected(s[1..], t, id);
    }
  }

  // ----- ordering -----------------------------------------------------------

  predicate SortedDesc<T>(s: seq<T>, key: T -> int) {
    forall i, j :: 0 <= i < j < |s| ==> key(s[i]) >= key(s[j])
  }

  function InsertDesc<T>(x: T, s: seq<T>, key: T -> int): (r: seq<T>)
    ensures multiset(r) == multiset(s) + multiset{x}
    ensures |r| == |s| + 1
  {
    if s == [] || key(x) >= key(s[0]) then [x] + s
    else
      assert s == [s[0]] + s[1..];
      [s[0]] + InsertDesc(x, s[1..], key)
  }

  lemma {:induction false} InsertDescSorted<T>(x: T, s: seq<T>, key: T -> int)
    requires SortedDesc(s, key)
    ensures SortedDesc(InsertDesc(x, s, key), key)
  {
    if s != [] && key(x) < key(s[0]) {
      var tail := s[1..];
      var rest := InsertDesc(x, tail, key);
      InsertDescSorted(x, tail, key);
      assert multiset(rest) == multiset(tail) + multiset{x};
      forall y | y in rest ensures key(s[0]) >= key(y) {
        assert y in multiset(rest);
        if y != x {
          assert y in multiset(tail);
          var k :| 0 <= k < |tail| && tail[k] == y;
          assert s[k + 1] == y;
        }
      }
      var r := [s[0]] + rest;
      forall i, j | 0 <= i < j < |r| ensures key(r[i]) >= key(r[j]) {
        assert r[j] == rest[j - 1];
        if i > 0 {
          assert r[i] == rest[i - 1];
        } else {
          assert rest[j - 1] in rest;
        }
      }
    }
  }

  /** A `$sort` descending on `key`: a permutation of `s` (ordered by `SortDescSorted`). */
  function SortDesc<T>(s: seq<T>, key: T -> int): (r: seq<T>)
    ensures multiset(r) == multiset(s)
    ensures |r| == |s|
  {
    if s == [] then []
    else
      assert s == [s[0]] + s[1..];
      InsertDesc(s[0], SortDesc(s[1..], key), key)
  }

  /** The sort orders by non-increasing key. */
  lemma {:induction false} SortDescSorted<T>(s: seq<T>, key: T -> int)
    ensures SortedDesc(SortDesc(s, key), key)
  {
    if s != [] {
      SortDescSorted(s[1..], key);
      InsertDescSorted(s[0], SortDesc(s[1..], key), key);
    }
  }

  function CreatedAt(c: Contact): int {
    c.createdAt
  }

  /** `sort({ createdAt: -1 })`. */
  function NewestFirst(s: seq<Contact>): (r: seq<Contact>)
    ensures multiset(r) == multiset(s) && |r| == |s|
    ensures forall i, j :: 0 <= i < j < |r| ==> r[i].createdAt >= r[j].createdAt
  {
    var r := SortDesc(s, CreatedAt);
    SortDescSorted(s, CreatedAt);
    assert forall i, j :: 0 <= i < j < |r| ==> CreatedAt(r[i]) >= CreatedAt(r[j]);
    r
  }

  // ----- skip / limit -------------------------------------------------------

  function Min(a: int, b: int): int {
    if a <= b then a else b
  }

  /**
    `.skip(skip).limit(limit)`: at most `limit` records from offset `skip`.
    Mongo reads `.limit(0)` as no limit; here `limit == 0` gives no records,
    and the handlers only pass a limit of at least 1.
   */
  function Window<T>(s: seq<T>, skip: nat, limit: nat): (r: seq<T>)
    ensures |r| == if skip >= |s| then 0 else Min(limit, |s| - skip)
    ensures forall i :: 0 <= i < |r| ==> skip + i < |s| && r[i] == s[skip + i]
  {
    if skip >= |s| then [] else s[skip..Min(skip + limit, |s|)]
  }
}
