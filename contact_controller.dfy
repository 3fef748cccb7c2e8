/**
  The contact handlers of src/controllers/contactController.js. The read-only
  handlers (list, get, stats) are functions of the contact table; the ones
  that write (create, update, soft delete) are methods of `ContactStore`,
  which owns the table and the id counter.
 */
module ContactController {
  import opened Wrappers
  import opened Text
  import opened ContactModel
  import opened ContactQueries

  /** The error outcomes of the handlers. */
  datatype ContactError = DuplicateEmail | NotFound | InternalError

  datatype Reply = Reply(status: nat, message: string)

  /** The status and message each error is answered with. */
  function ErrorReply(e: ContactError): (r: Reply)
    ensures r.status == 404 <==> e == NotFound
    ensures r.status == 400 <==> e == DuplicateEmail
    ensures r.status == 500 <==> e == InternalError
  {
    match e
    case DuplicateEmail => Reply(400, "Contact with this email already exists")
    case NotFound => Reply(404, "Contact not found")
    case InternalError => Reply(500, "Internal server error")
  }

  // ----- getContacts ----------------------------------------------------------

  datatype Pagination = Pagination(
    currentPage: nat,
    totalPages: nat,
    totalContacts: nat,
    hasNext: bool,
    hasPrev: bool)

  datatype ContactPage = ContactPage(contacts: seq<Contact>, pagination: Pagination)

  /**
    `if (search)` / `if (tag)`: an empty string adds no condition. The tag is
    cast through the `tags` setter, so it is compared trimmed.
   */
  function ListFilter(t: TenantId, search: Option<string>, tag: Option<string>): (f: Filter)
    ensures f.tenantId == t && f.activeOnly && f.id.None? && f.email.None?
    ensures f.createdSince.None? && !f.hasCompany && f.company.None?
    ensures f.search.Some? <==> search.Some? && search.value != []
    ensures f.search.Some? ==> f.search == search
    ensures f.tag.Some? <==> tag.Some? && tag.value != []
    ensures f.tag.Some? ==> f.tag.value == Trim(tag.value)
  {
    ActiveFilter(t).(
      search := if search.Some? && search.value != [] then search else None,
      tag := if tag.Some? && tag.value != [] then Some(Trim(tag.value)) else None)
  }

  /** `Math.ceil(total / limit)`. */
  function TotalPages(total: nat, limit: nat): (n: nat)
    requires limit >= 1
    ensures n * limit >= total
    ensures n == 0 || (n - 1) * limit < total
  {
    var n := (total + limit - 1) / limit;
    assert n * limit <= total + limit - 1 < (n + 1) * limit;
    n
  }

  /** `(page - 1) * limit`: the records of the pages before `page`. */
  function Skip(page: nat, limit: nat): (r: nat)
    requires page >= 1
    ensures page == 1 ==> r == 0
    ensures page > 1 ==> r == Skip(page - 1, limit) + limit
  {
    (page - 1) * limit
  }

  lemma MulMono(a: int, b: int, c: nat)
    requires a <= b
    ensures a * c <= b * c
  {
  }

  /** How many records page `page` holds out of `total`. */
  function PageCount(total: nat, page: nat, limit: nat): (n: nat)
    requires page >= 1
    ensures n <= limit
    ensures n == 0 <==> Skip(page, limit) >= total || limit == 0
  {
    var skip := Skip(page, limit);
    if skip >= total then 0 else Min(limit, total - skip)
  }

  /** `skip + contacts.length < total` holds exactly when the page is not the last one. */
  lemma HasNextIffNotLastPage(total: nat, page: nat, limit: nat)
    requires page >= 1 && limit >= 1
    ensures Skip(page, limit) + PageCount(total, page, limit) < total <==> page < TotalPages(total, limit)
  {
    var n := TotalPages(total, limit);
    var skip := Skip(page, limit);
    assert skip + limit == page * limit;
    if page < n {
      MulMono(page, n - 1, limit);
    } else {
      MulMono(n, page, limit);
    }
    if skip >= total && n > 0 {
      MulMono(n - 1, page - 1, limit);
    }
  }

  /** The pagination object of the reply, for the page of `total` records. */
  function PageMeta(total: nat, page: nat, limit: nat): (r: Pagination)
    requires page >= 1 && limit >= 1
    ensures r.currentPage == page && r.totalContacts == total
    ensures r.totalPages * limit >= total && (r.totalPages == 0 || (r.totalPages - 1) * limit < total)
    ensures r.hasPrev <==> page > 1
    ensures r.hasNext <==> page < r.totalPages
  {
    HasNextIffNotLastPage(total, page, limit);
    Pagination(page, TotalPages(total, limit), total,
               Skip(page, limit) + PageCount(total, page, limit) < total, page > 1)
  }

  /** A page of the sorted records holds records of the input, newest first. */
  lemma WindowOfNewest(matched: seq<Contact>, skip: nat, limit: nat)
    ensures forall c :: c in Window(NewestFirst(matched), skip, limit) ==> c in matched
    ensures var w := Window(NewestFirst(matched), skip, limit);
            forall i, j :: 0 <= i < j < |w| ==> w[i].createdAt >= w[j].createdAt
  {
    var sorted := NewestFirst(matched);
    var w := Window(sorted, skip, limit);
    forall c | c in w ensures c in matched {
      assert c in multiset(sorted);
    }
    forall i, j | 0 <= i < j < |w| ensures w[i].createdAt >= w[j].createdAt {
      assert w[i] == sorted[skip + i] && w[j] == sorted[skip + j];
    }
  }

  /** `getContacts`: the requested page of the tenant's matching active contacts, newest first. */
  function ListContacts(s: seq<Contact>, t: TenantId, page: nat, limit: nat,
                        search: Option<string>, tag: Option<string>): (r: ContactPage)
    requires page >= 1 && limit >= 1
    ensures forall c :: c in r.contacts ==> c in s && c.tenantId == t && c.isActive
    ensures forall c :: c in r.contacts ==> Matches(c, ListFilter(t, search, tag))
    ensures |r.contacts| <= limit
    ensures forall i, j :: 0 <= i < j < |r.contacts| ==> r.contacts[i].createdAt >= r.contacts[j].createdAt
    ensures r.pagination.totalContacts == |Select(s, ListFilter(t, search, tag))|
    ensures r.contacts == Window(NewestFirst(Select(s, ListFilter(t, search, tag))), Skip(page, limit), limit)
    ensures r.pagination.currentPage == page
    ensures r.pagination.hasPrev <==> page > 1
    ensures r.pagination.hasNext <==> page < r.pagination.totalPages
    ensures |r.contacts| == PageCount(|Select(s, ListFilter(t, search, tag))|, page, limit)
    ensures r.pagination.totalPages == TotalPages(|Select(s, ListFilter(t, search, tag))|, limit)
    ensures r.pagination == PageMeta(|Select(s, ListFilter(t, search, tag))|, page, limit)
  {
    var matched := Select(s, ListFilter(t, search, tag));
    var items := Window(NewestFirst(matched), Skip(page, limit), limit);
    WindowOfNewest(matched, Skip(page, limit), limit);
    assert |items| == PageCount(|matched|, page, limit);
    ContactPage(items, PageMeta(|matched|, page, limit))
  }

  const DefaultPage: nat := 1
  const DefaultLimit: nat := 10

  /** `const { page = 1, limit = 10 } = req.query`: an absent parameter takes its default. */
  function ListContactsQuery(s: seq<Contact>, t: TenantId, page: Option<nat>, limit: Option<nat>,
                             search: Option<string>, tag: Option<string>): (r: ContactPage)
    requires page.Some? ==> page.value >= 1
    requires limit.Some? ==> limit.value >= 1
    ensures r.pagination.currentPage == page.GetOr(DefaultPage)
    ensures page.None? ==> !r.pagination.hasPrev
    ensures limit.None? ==> |r.contacts| <= DefaultLimit
    ensures r.contacts == Window(NewestFirst(Select(s, ListFilter(t, search, tag))),
                                 Skip(page.GetOr(DefaultPage), limit.GetOr(DefaultLimit)), limit.GetOr(DefaultLimit))
    ensures r == ListContacts(s, t, page.GetOr(DefaultPage), limit.GetOr(DefaultLimit), search, tag)
  {
    ListContacts(s, t, page.GetOr(DefaultPage), limit.GetOr(DefaultLimit), search, tag)
  }

  /** 15 matching contacts, page 2 of 10: the last 5, no next page, a previous one. */
  lemma FifteenContactsSecondPage(sorted: seq<Contact>)
    requires |sorted| == 15
    ensures Window(sorted, Skip(2, 10), 10) == sorted[10..]
    ensures PageMeta(15, 2, 10) == Pagination(2, 2, 15, false, true)
  {
  }

  // ----- getContact -----------------------------------------------------------

  /** `getContact`: the tenant's active contact with that id, or not-found. */
  function GetContact(s: seq<Contact>, t: TenantId, id: ContactId): (r: Result<Contact, ContactError>)
    ensures r.Success? ==> r.value in s && r.value.id == id && r.value.tenantId == t && r.value.isActive
    ensures r.Failure? ==> r.error == NotFound
    ensures r.Failure? <==> forall c :: c in s && c.id == id ==> c.tenantId != t || !c.isActive
  {
    match FindOne(s, t, id)
    case Some(c) => Success(c)
    case None => Failure(NotFound)
  }

  // ----- getContactStats ------------------------------------------------------

  /** Seven days in milliseconds. */
  const RecentWindowMs: int := 7 * 24 * 60 * 60 * 1000

  datatype CompanyCount = CompanyCount(company: string, count: nat)

  datatype Stats = Stats(totalContacts: nat, recentContacts: nat, topCompanies: seq<CompanyCount>)

  function RecentFilter(t: TenantId, now: int): Filter {
    ActiveFilter(t).(createdSince := Some(now - RecentWindowMs))
  }

  /** The `$match` stage of the aggregation. */
  function CompanyFilter(t: TenantId): Filter {
    ActiveFilter(t).(hasCompany := true)
  }

  /** The members of one `$group` bucket. */
  function CompanyCountFilter(t: TenantId, company: string): Filter {
    ActiveFilter(t).(hasCompany := true, company := Some(company))
  }

  ghost predicate Distinct<T>(s: seq<T>) {
    forall i, j :: 0 <= i < j < |s| ==> s[i] != s[j]
  }

  /** The `$group` keys: each company named by some contact, once. */
  function Companies(cs: seq<Contact>): (r: seq<string>)
    ensures Distinct(r)
    ensures forall n :: n in r <==> exists c :: c in cs && c.data.company == Some(n)
  {
    if cs == [] then []
    else
      var rest := Companies(cs[1..]);
      assert forall c :: c in cs[1..] ==> c in cs;
      assert cs == [cs[0]] + cs[1..];
      match cs[0].data.company
      case None => rest
      case Some(n) => if n in rest then rest else [n] + rest
  }

  function Count(g: CompanyCount): int {
    g.count
  }

  /** One `{ _id: company, count }` document per company. */
  function Groups(s: seq<Contact>, t: TenantId, names: seq<string>): (r: seq<CompanyCount>)
    ensures |r| == |names|
    ensures forall i :: 0 <= i < |r| ==>
              r[i] == CompanyCount(names[i], |Select(s, CompanyCountFilter(t, names[i]))|)
  {
    seq(|names|, i requires 0 <= i < |names| =>
      CompanyCount(names[i], |Select(s, CompanyFilter(t).(company := Some(names[i])))|))
  }

  /** The aggregation before `$limit`: the groups by non-increasing count. */
  function Ranked(s: seq<Contact>, t: TenantId): (r: seq<CompanyCount>)
    ensures multiset(r) == multiset(Groups(s, t, Companies(Select(s, CompanyFilter(t)))))
    ensures SortedDesc(r, Count)
  {
    var groups := Groups(s, t, Companies(Select(s, CompanyFilter(t))));
    SortDescSorted(groups, Count);
    SortDesc(groups, Count)
  }

  /**
    The `$limit: 5` stage: at most five companies without repeats, each with
    the number of the tenant's active contacts at it, by non-increasing count.
   */
  function TopFive(s: seq<Contact>, t: TenantId): (top: seq<CompanyCount>)
    ensures |top| <= 5
    ensures forall i :: 0 <= i < |top| ==> CountedCompany(s, t, top[i])
    ensures forall i, j :: 0 <= i < j < |top| ==> top[i].count >= top[j].count
    ensures forall i, j :: 0 <= i < j < |top| ==> top[i].company != top[j].company
  {
    var ranked := Ranked(s, t);
    var top := ranked[..Min(5, |ranked|)];
    assert forall i :: 0 <= i < |top| ==> top[i] == ranked[i];
    RankedEntries(s, t);
    RankedDistinct(s, t);
    forall i, j | 0 <= i < j < |top| ensures top[i].count >= top[j].count {
      assert Count(ranked[i]) >= Count(ranked[j]);
    }
    top
  }

  /** `getContactStats`: active total, active created in the last seven days, top five companies. */
  function ContactStats(s: seq<Contact>, t: TenantId, now: int): (r: Stats)
    ensures r.totalContacts == |Select(s, ActiveFilter(t))|
    ensures r.recentContacts == |Select(s, RecentFilter(t, now))|
    ensures r.recentContacts <= r.totalContacts
    ensures r.topCompanies == TopFive(s, t)
  {
    SelectMonotone(s, ActiveFilter(t), RecentFilter(t, now));
    Stats(|Select(s, ActiveFilter(t))|, |Select(s, RecentFilter(t, now))|, TopFive(s, t))
  }

  lemma {:induction false} DistinctCountAtMostOne<T>(s: seq<T>, v: T)
    requires Distinct(s)
    ensures multiset(s)[v] <= 1
  {
    if s != [] {
      assert s == [s[0]] + s[1..];
      DistinctCountAtMostOne(s[1..], v);
      if s[0] == v {
        assert v !in s[1..];
      }
    }
  }

  lemma RepeatCountsTwice<T>(s: seq<T>, i: nat, j: nat)
    requires i < j < |s| && s[i] == s[j]
    ensures multiset(s)[s[i]] >= 2
  {
    assert s == s[..j] + s[j..];
    assert s[i] in s[..j] && s[j] == s[j..][0];
  }

  /** A permutation of a sequence without repeats has no repeats. */
  lemma PermutationKeepsDistinct<T>(a: seq<T>, b: seq<T>)
    requires Distinct(a) && multiset(a) == multiset(b)
    ensures Distinct(b)
  {
    forall i, j | 0 <= i < j < |b| ensures b[i] != b[j] {
      if b[i] == b[j] {
        RepeatCountsTwice(b, i, j);
        DistinctCountAtMostOne(a, b[i]);
      }
    }
  }

  /** `g` names a company of the tenant's active contacts, with the number of them at it. */
  predicate CountedCompany(s: seq<Contact>, t: TenantId, g: CompanyCount) {
    && g.company != []
    && g.count >= 1
    && g.count == |Select(s, CompanyCountFilter(t, g.company))|
  }

  /** Each group is a company of some active contact, with that company's count. */
  lemma GroupEntries(s: seq<Contact>, t: TenantId)
    ensures forall g :: g in Groups(s, t, Companies(Select(s, CompanyFilter(t)))) ==> CountedCompany(s, t, g)
  {
  }

  /** Each ranked entry is a company of some active contact, with that company's count. */
  lemma RankedEntries(s: seq<Contact>, t: TenantId)
    ensures forall g :: g in Ranked(s, t) ==> CountedCompany(s, t, g)
  {
    var groups := Groups(s, t, Companies(Select(s, CompanyFilter(t))));
    GroupEntries(s, t);
    forall g | g in Ranked(s, t) ensures g in groups {
      assert g in multiset(Ranked(s, t));
    }
  }

  /** A company with an active contact is among the ranked entries. */
  lemma RankedComplete(s: seq<Contact>, t: TenantId, n: string)
    requires n != [] && |Select(s, CompanyCountFilter(t, n))| >= 1
    ensures exists m :: 0 <= m < |Ranked(s, t)| && Ranked(s, t)[m].company == n
  {
    var cs := Select(s, CompanyFilter(t));
    var names := Companies(cs);
    var groups := Groups(s, t, names);
    var sel := Select(s, CompanyCountFilter(t, n));
    var c := sel[0];
    assert c in sel;
    assert Matches(c, CompanyFilter(t));
    assert n in names;
    var g :| 0 <= g < |names| && names[g] == n;
    assert groups[g] in multiset(Ranked(s, t));
    var m :| 0 <= m < |Ranked(s, t)| && Ranked(s, t)[m] == groups[g];
  }

  /** No company is ranked twice. */
  lemma RankedDistinct(s: seq<Contact>, t: TenantId)
    ensures forall i, j :: 0 <= i < j < |Ranked(s, t)| ==> Ranked(s, t)[i].company != Ranked(s, t)[j].company
  {
    var names := Companies(Select(s, CompanyFilter(t)));
    var groups := Groups(s, t, names);
    assert Distinct(groups) by {
      forall i, j | 0 <= i < j < |groups| ensures groups[i] != groups[j] {
        assert groups[i].company == names[i] && groups[j].company == names[j];
      }
    }
    var ranked := Ranked(s, t);
    PermutationKeepsDistinct(groups, ranked);
    RankedEntries(s, t);
    forall i, j | 0 <= i < j < |ranked| ensures ranked[i].company != ranked[j].company {
      assert CountedCompany(s, t, ranked[i]) && CountedCompany(s, t, ranked[j]);
    }
  }

  /** A company with active contacts is listed, or outranked by all five listed. */
  lemma TopCompaniesComplete(s: seq<Contact>, t: TenantId, n: string)
    requires n != [] && |Select(s, CompanyCountFilter(t, n))| >= 1
    ensures || (exists i :: 0 <= i < |TopFive(s, t)| && TopFive(s, t)[i].company == n)
            || (&& |TopFive(s, t)| == 5
                && forall i :: 0 <= i < 5 ==> TopFive(s, t)[i].count >= |Select(s, CompanyCountFilter(t, n))|)
  {
    var ranked := Ranked(s, t);
    var top := TopFive(s, t);
    RankedComplete(s, t, n);
    var m :| 0 <= m < |ranked| && ranked[m].company == n;
    if m < |top| {
      assert top[m] == ranked[m];
    } else {
      assert |top| == 5;
      RankedEntries(s, t);
      assert CountedCompany(s, t, ranked[m]);
      forall i | 0 <= i < 5 ensures top[i].count >= ranked[m].count {
        assert top[i] == ranked[i];
        assert Count(ranked[i]) >= Count(ranked[m]);
      }
    }
  }

  // ----- tenant isolation of the read side ------------------------------------

  /** What tenant `t` reads is determined by `t`'s own records alone. */
  lemma {:induction false} ReadsSeeOnlyOwnTenant(s: seq<Contact>, s': seq<Contact>, t: TenantId,
                                                 id: ContactId, page: nat, limit: nat,
                                                 search: Option<string>, tag: Option<string>, now: int)
    requires Owned(s, t) == Owned(s', t)
    requires page >= 1 && limit >= 1
    ensures GetContact(s, t, id) == GetContact(s', t, id)
    ensures ListContacts(s, t, page, limit, search, tag) == ListContacts(s', t, page, limit, search, tag)
    ensures ContactStats(s, t, now) == ContactStats(s', t, now)
  {
    forall f: Filter | f.tenantId == t ensures Select(s, f) == Select(s', f) {
      SelectThroughOwned(s, f);
      SelectThroughOwned(s', f);
    }
    FindOneIsFirstSelected(s, t, id);
    FindOneIsFirstSelected(s', t, id);
    var names := Companies(Select(s, CompanyFilter(t)));
    assert Groups(s, t, names) == Groups(s', t, names);
    assert Ranked(s, t) == Ranked(s', t);
  }

  // ----- the contact table and the handlers that write it ---------------------

  /** `Contact.findOne({ tenantId, email })` finds a record: any of the tenant's, active or not. */
  predicate EmailTaken(s: seq<Contact>, t: TenantId, email: string): (b: bool)
    ensures b <==> exists c :: c in s && c.tenantId == t && c.data.email == NormalizeEmail(email)
  {
    var found := Select(s, EmailFilter(t, NormalizeEmail(email)));
    assert found != [] ==> found[0] in found;
    found != []
  }

  /** No two contacts of one tenant share an email. */
  ghost predicate EmailsUniquePerTenant(s: seq<Contact>) {
    forall i, j :: 0 <= i < j < |s| && s[i].tenantId == s[j].tenantId ==> s[i].data.email != s[j].data.email
  }

  ghost predicate IdsUnique(s: seq<Contact>) {
    forall i, j :: 0 <= i < j < |s| ==> s[i].id != s[j].id
  }

  /** Replacing one record of tenant `t` leaves every other tenant's records as they were. */
  lemma OwnedAfterReplace(s: seq<Contact>, i: nat, c: Contact)
    requires i < |s| && c.tenantId == s[i].tenantId
    ensures forall u :: u != c.tenantId ==> Owned(s[i := c], u) == Owned(s, u)
  {
    forall u | u != c.tenantId ensures Owned(s[i := c], u) == Owned(s, u) {
      SelectReplaceForeign(s, i, c, TenantFilter(u));
    }
  }

  /** Appending a record of tenant `t` leaves every other tenant's records as they were. */
  lemma OwnedAfterAppend(s: seq<Contact>, c: Contact)
    ensures forall u :: u != c.tenantId ==> Owned(s + [c], u) == Owned(s, u)
  {
    forall u | u != c.tenantId ensures Owned(s + [c], u) == Owned(s, u) {
      SelectAppend(s, c, TenantFilter(u));
    }
  }

  /** When the duplicate check finds nothing, no record of the tenant has that email. */
  lemma NotTakenMeansFree(s: seq<Contact>, t: TenantId, email: string)
    requires !EmailTaken(s, t, email)
    ensures forall i :: 0 <= i < |s| && s[i].tenantId == t ==> s[i].data.email != NormalizeEmail(email)
  {
    forall i | 0 <= i < |s| && s[i].tenantId == t ensures s[i].data.email != NormalizeEmail(email) {
      assert s[i] in s;
    }
  }

  /** A contact whose email its tenant does not use yet keeps emails unique per tenant. */
  lemma AppendKeepsEmailsUnique(s: seq<Contact>, c: Contact)
    requires EmailsUniquePerTenant(s)
    requires forall i :: 0 <= i < |s| && s[i].tenantId == c.tenantId ==> s[i].data.email != c.data.email
    ensures EmailsUniquePerTenant(s + [c])
  {
  }

  /** Every stored contact is well formed and has its own id, below the next one to issue. */
  ghost predicate TableValid(s: seq<Contact>, nextId: nat) {
    && (forall i :: 0 <= i < |s| ==> s[i].id < nextId && WellFormed(s[i]))
    && IdsUnique(s)
  }

  /** Storing a well-formed contact under the next id keeps the table valid. */
  lemma AppendFreshKeepsValid(s: seq<Contact>, nextId: nat, c: Contact)
    requires TableValid(s, nextId) && c.id == nextId && WellFormed(c)
    ensures TableValid(s + [c], nextId + 1)
  {
  }

  /**
    The duplicate check guards creation only, and the `(tenantId, email)` index
    is not unique: patching a contact with the email of another contact of the
    same tenant is a valid update, and afterwards the two share that email.
   */
  lemma UpdateCanDuplicateEmail(s: seq<Contact>, i: nat, j: nat, now: int)
    requires i < |s| && j < |s| && i != j
    requires s[i].tenantId == s[j].tenantId && WellFormed(s[i])
    ensures var p := NoChange.(email := Some(s[i].data.email));
            PatchValid(p) && !EmailsUniquePerTenant(s[j := Patched(s[j], p, now)])
  {
    var e := s[i].data.email;
    var p := NoChange.(email := Some(e));
    assert Trim(e) == e && NormalizeEmail(e) == e;
    var s' := s[j := Patched(s[j], p, now)];
    assert s'[i].data.email == s'[j].data.email;
    if i < j {
      assert !(s'[i].tenantId == s'[j].tenantId ==> s'[i].data.email != s'[j].data.email);
    } else {
      assert !(s'[j].tenantId == s'[i].tenantId ==> s'[j].data.email != s'[i].data.email);
    }
  }

  /** The contacts collection: every contact of every tenant, and the next id to issue. */
  class ContactStore {
    var contacts: seq<Contact>
    var nextId: nat

    ghost predicate Valid()
      reads this
    {
      TableValid(contacts, nextId)
    }

    constructor ()
      ensures Valid() && contacts == [] && nextId == 0
    {
      contacts := [];
      nextId := 0;
    }

    /**
      `createContact`: refused when the tenant already has a contact with that
      email, active or not; otherwise the contact is stored with the caller's
      tenant and user, unless a required field is empty.
     */
    method CreateContact(tenantId: TenantId, userId: UserId, fields: ContactFields, now: int)
      returns (r: Result<Contact, ContactError>)
      requires Valid()
      modifies this
      ensures Valid()
      ensures EmailTaken(old(contacts), tenantId, fields.email) ==>
                r == Failure(DuplicateEmail) && contacts == old(contacts) && nextId == old(nextId)
      ensures !EmailTaken(old(contacts), tenantId, fields.email) &&
              NewContact(old(nextId), tenantId, userId, fields, now).None? ==>
                r == Failure(InternalError) && contacts == old(contacts) && nextId == old(nextId)
      ensures (!EmailTaken(old(contacts), tenantId, fields.email) &&
               NewContact(old(nextId), tenantId, userId, fields, now).Some?) ==> r.Success?
      ensures r.Success? ==>
                && r.value == NewContact(old(nextId), tenantId, userId, fields, now).value
                && contacts == old(contacts) + [r.value]
                && nextId == old(nextId) + 1
      ensures r.Success? ==> r.value.tenantId == tenantId && r.value.userId == userId && r.value.isActive
      ensures forall u :: u != tenantId ==> Owned(contacts, u) == Owned(old(contacts), u)
      ensures EmailsUniquePerTenant(old(contacts)) ==> EmailsUniquePerTenant(contacts)
    {
      if EmailTaken(contacts, tenantId, fields.email) {
        return Failure(DuplicateEmail);
      }
      var made := NewContact(nextId, tenantId, userId, fields, now);
      if made.None? {
        return Failure(InternalError);
      }
      var c := made.value;
      OwnedAfterAppend(contacts, c);
      AppendFreshKeepsValid(contacts, nextId, c);
      NotTakenMeansFree(contacts, tenantId, fields.email);
      if EmailsUniquePerTenant(contacts) {
        AppendKeepsEmailsUnique(contacts, c);
      }
      contacts := contacts + [c];
      nextId := nextId + 1;
      r := Success(c);
    }

    /**
      `updateContact`: a patch with an empty required field is refused by the
      update validators; otherwise the tenant's active contact with that id is
      patched, or not-found is answered. Nothing else changes.
     */
    method UpdateContact(tenantId: TenantId, id: ContactId, patch: ContactPatch, now: int)
      returns (r: Result<Contact, ContactError>)
      requires Valid()
      modifies this
      ensures Valid()
      ensures nextId == old(nextId) && |contacts| == |old(contacts)|
      ensures !PatchValid(patch) ==> r == Failure(InternalError) && contacts == old(contacts)
      ensures PatchValid(patch) && Locate(old(contacts), tenantId, id).None? ==>
                r == Failure(NotFound) && contacts == old(contacts)
      ensures PatchValid(patch) && Locate(old(contacts), tenantId, id).Some? ==>
                var i := Locate(old(contacts), tenantId, id).value;
                && r == Success(Patched(old(contacts)[i], patch, now))
                && contacts == old(contacts)[i := r.value]
      ensures forall u :: u != tenantId ==> Owned(contacts, u) == Owned(old(contacts), u)
    {
      if !PatchValid(patch) {
        return Failure(InternalError);
      }
      var found := Locate(contacts, tenantId, id);
      if found.None? {
        return Failure(NotFound);
      }
      var i := found.value;
      var c := Patched(contacts[i], patch, now);
      OwnedAfterReplace(contacts, i, c);
      contacts := contacts[i := c];
      r := Success(c);
    }

    /**
      `deleteContact` (soft delete): the tenant's active contact with that id
      is marked inactive and kept, or not-found is answered.
     */
    method DeleteContact(tenantId: TenantId, id: ContactId, now: int)
      returns (r: Result<Contact, ContactError>)
      requires Valid()
      modifies this
      ensures Valid()
      ensures nextId == old(nextId) && |contacts| == |old(contacts)|
      ensures Locate(old(contacts), tenantId, id).None? ==>
                r == Failure(NotFound) && contacts == old(contacts)
      ensures Locate(old(contacts), tenantId, id).Some? ==>
                var i := Locate(old(contacts), tenantId, id).value;
                && r == Success(Deactivated(old(contacts)[i], now))
                && contacts == old(contacts)[i := r.value]
      ensures r.Success? ==> FindOne(contacts, tenantId, id).None?
      ensures forall u :: u != tenantId ==> Owned(contacts, u) == Owned(old(contacts), u)
    {
      var found := Locate(contacts, tenantId, id);
      if found.None? {
        return Failure(NotFound);
      }
      var i := found.value;
      var c := Deactivated(contacts[i], now);
      OwnedAfterReplace(contacts, i, c);
      forall j | 0 <= j < |contacts| && j != i ensures contacts[j].id != id {
      }
      contacts := contacts[i := c];
      r := Success(c);
    }
  }
}
