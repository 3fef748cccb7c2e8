/**
  The Contact document (src/models/Contact.js): its fields, the `trim` and
  `lowercase` setters applied on every write, the required validators and the
  `isActive` default.
 */
module ContactModel {
  import opened Wrappers
  import opened Text

  type TenantId = nat
  type UserId = nat
  type ContactId = nat

  datatype Address = Address(
    street: Option<string>,
    city: Option<string>,
    state: Option<string>,
    zipCode: Option<string>,
    country: Option<string>)

  /** The contact's own fields, as a request body carries them. */
  datatype ContactFields = ContactFields(
    name: string,
    email: string,
    phone: string,
    company: Option<string>,
    position: Option<string>,
    address: Address,
    notes: Option<string>,
    tags: seq<string>)

  /** A stored contact. `tenantId` and `userId` are always present. */
  datatype Contact = Contact(
    id: ContactId,
    tenantId: TenantId,
    userId: UserId,
    data: ContactFields,
    isActive: bool,
    createdAt: int,
    updatedAt: int)

  /** The schema default of `isActive`. */
  const DefaultIsActive := true

  predicate OptTrimmed(o: Option<string>) {
    o.Some? ==> IsTrimmed(o.value)
  }

  function TrimOpt(o: Option<string>): (r: Option<string>)
    ensures r.Some? <==> o.Some?
    ensures o.Some? ==> r == Some(Trim(o.value))
    ensures OptTrimmed(r)
    ensures OptTrimmed(o) ==> r == o
  {
    match o
    case None => None
    case Some(s) => Some(Trim(s))
  }

  predicate AddressTrimmed(a: Address) {
    OptTrimmed(a.street) && OptTrimmed(a.city) && OptTrimmed(a.state)
    && OptTrimmed(a.zipCode) && OptTrimmed(a.country)
  }

  function TrimAddress(a: Address): (r: Address)
    ensures r.street == TrimOpt(a.street) && r.city == TrimOpt(a.city) && r.state == TrimOpt(a.state)
    ensures r.zipCode == TrimOpt(a.zipCode) && r.country == TrimOpt(a.country)
    ensures AddressTrimmed(r)
    ensures AddressTrimmed(a) ==> r == a
  {
    Address(TrimOpt(a.street), TrimOpt(a.city), TrimOpt(a.state),
            TrimOpt(a.zipCode), TrimOpt(a.country))
  }

  predicate TagsTrimmed(tags: seq<string>) {
    forall i :: 0 <= i < |tags| ==> IsTrimmed(tags[i])
  }

  /** The `tags: [{ trim: true }]` setter: each tag trimmed, order and count kept. */
  function TrimTags(tags: seq<string>): (r: seq<string>)
    ensures |r| == |tags|
    ensures forall i :: 0 <= i < |tags| ==> r[i] == Trim(tags[i])
    ensures TagsTrimmed(r)
    ensures TagsTrimmed(tags) ==> r == tags
  {
    if tags == [] then [] else [Trim(tags[0])] + TrimTags(tags[1..])
  }

  /** Fields as the setters leave them: trimmed, and the email lower-cased. */
  predicate IsNormalized(f: ContactFields) {
    && IsTrimmed(f.name)
    && IsNormalEmail(f.email)
    && IsTrimmed(f.phone)
    && OptTrimmed(f.company)
    && OptTrimmed(f.position)
    && AddressTrimmed(f.address)
    && OptTrimmed(f.notes)
    && TagsTrimmed(f.tags)
  }

  /** Applies the schema's setters to every field of a body. */
  function Normalize(f: ContactFields): (r: ContactFields)
    ensures r.name == Trim(f.name) && r.email == NormalizeEmail(f.email) && r.phone == Trim(f.phone)
    ensures r.company == TrimOpt(f.company) && r.position == TrimOpt(f.position) && r.notes == TrimOpt(f.notes)
    ensures r.address == TrimAddress(f.address) && r.tags == TrimTags(f.tags)
    ensures IsNormalized(r)
    ensures IsNormalized(f) ==> r == f
    ensures |r.tags| == |f.tags|
  {
    ContactFields(
      Trim(f.name), NormalizeEmail(f.email), Trim(f.phone),
      TrimOpt(f.company), TrimOpt(f.position), TrimAddress(f.address),
      TrimOpt(f.notes), TrimTags(f.tags))
  }

  /** The `required: true` validators: Mongoose rejects an empty string. */
  predicate HasRequired(f: ContactFields) {
    f.name != [] && f.email != [] && f.phone != []
  }

  /** What every stored contact satisfies. */
  predicate WellFormed(c: Contact) {
    IsNormalized(c.data) && HasRequired(c.data)
  }

  /**
    `new Contact({...fields, tenantId, userId})` followed by validation on save:
    None when a required field is empty once trimmed.
   */
  function NewContact(id: ContactId, tenantId: TenantId, userId: UserId,
                      fields: ContactFields, now: int): (r: Option<Contact>)
    ensures r.Some? <==> Trim(fields.name) != [] && Trim(fields.email) != [] && Trim(fields.phone) != []
    ensures r.Some? ==> WellFormed(r.value)
    ensures r.Some? ==> r.value.id == id && r.value.tenantId == tenantId && r.value.userId == userId
    ensures r.Some? ==> r.value.isActive && r.value.createdAt == now && r.value.updatedAt == now
    ensures r.Some? ==> r.value.data == Normalize(fields)
  {
    var data := Normalize(fields);
    if HasRequired(data) then
      Some(Contact(id, tenantId, userId, data, DefaultIsActive, now, now))
    else
      None
  }

  /** An update body restricted to the contact's own fields; None leaves a field as it is. */
  datatype ContactPatch = ContactPatch(
    name: Option<string>,
    email: Option<string>,
    phone: Option<string>,
    company: Option<string>,
    position: Option<string>,
    address: Option<Address>,
    notes: Option<string>,
    tags: Option<seq<string>>)

  /** The patch that changes nothing. */
  const NoChange := ContactPatch(None, None, None, None, None, None, None, None)

  /** A patch that sets every field, as a full PUT body does. */
  function FullPatch(f: ContactFields): ContactPatch {
    ContactPatch(Some(f.name), Some(f.email), Some(f.phone), f.company, f.position,
                 Some(f.address), f.notes, Some(f.tags))
  }

  /** Update validators (`runValidators: true`): a required path may not be set to empty. */
  predicate PatchValid(p: ContactPatch) {
    && (p.name.Some? ==> Trim(p.name.value) != [])
    && (p.email.Some? ==> Trim(p.email.value) != [])
    && (p.phone.Some? ==> Trim(p.phone.value) != [])
  }

  function SetOpt(current: Option<string>, update: Option<string>): (r: Option<string>)
    ensures update.None? ==> r == current
    ensures update.Some? ==> r == Some(Trim(update.value))
    ensures OptTrimmed(current) ==> OptTrimmed(r)
  {
    if update.Some? then TrimOpt(update) else current
  }

  /** The `$set` of a patch, with the setters applied to the values it writes. */
  function Patch(f: ContactFields, p: ContactPatch): (r: ContactFields)
    ensures r.name == if p.name.Some? then Trim(p.name.value) else f.name
    ensures r.email == if p.email.Some? then NormalizeEmail(p.email.value) else f.email
    ensures r.phone == if p.phone.Some? then Trim(p.phone.value) else f.phone
    ensures r.company == SetOpt(f.company, p.company)
    ensures r.position == SetOpt(f.position, p.position)
    ensures r.address == if p.address.Some? then TrimAddress(p.address.value) else f.address
    ensures r.notes == SetOpt(f.notes, p.notes)
    ensures r.tags == if p.tags.Some? then TrimTags(p.tags.value) else f.tags
    ensures IsNormalized(f) ==> IsNormalized(r)
    ensures HasRequired(f) && PatchValid(p) ==> HasRequired(r)
    ensures p == NoChange ==> r == f
  {
    ContactFields(
      if p.name.Some? then Trim(p.name.value) else f.name,
      if p.email.Some? then NormalizeEmail(p.email.value) else f.email,
      if p.phone.Some? then Trim(p.phone.value) else f.phone,
      SetOpt(f.company, p.company),
      SetOpt(f.position, p.position),
      if p.address.Some? then TrimAddress(p.address.value) else f.address,
      SetOpt(f.notes, p.notes),
      if p.tags.Some? then TrimTags(p.tags.value) else f.tags)
  }

  /** A PUT of a complete body writes exactly what creation would have stored. */
  lemma FullPatchReplaces(current: ContactFields, f: ContactFields)
    requires f.company.Some? && f.position.Some? && f.notes.Some?
    ensures Patch(current, FullPatch(f)) == Normalize(f)
  {
  }

  /** `findOneAndUpdate` with a patch: the fields change and `updatedAt` is bumped. */
  function Patched(c: Contact, p: ContactPatch, now: int): (r: Contact)
    ensures r.data == Patch(c.data, p)
    ensures r.id == c.id && r.tenantId == c.tenantId && r.userId == c.userId
    ensures r.isActive == c.isActive && r.createdAt == c.createdAt && r.updatedAt == now
    ensures WellFormed(c) && PatchValid(p) ==> WellFormed(r)
  {
    c.(data := Patch(c.data, p), updatedAt := now)
  }

  /** `findOneAndUpdate` with `{ isActive: false }`: only the flag and `updatedAt` change. */
  function Deactivated(c: Contact, now: int): (r: Contact)
    ensures !r.isActive && r.updatedAt == now
    ensures r.id == c.id && r.tenantId == c.tenantId && r.userId == c.userId
    ensures r.data == c.data && r.createdAt == c.createdAt
    ensures WellFormed(c) ==> WellFormed(r)
  {
    c.(isActive := false, updatedAt := now)
  }
}
