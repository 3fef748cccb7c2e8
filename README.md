# Multi-tenant CRM: contacts and authentication, modelled in Dafny

This project models the core of a multi-tenant CRM back end (an Express and
Mongoose service). Every contact, user and query belongs to a tenant, which is
an organisation. The model covers:

- the Contact and User documents: their fields, the `trim` and `lowercase`
  setters, the `required` validators, the role enumeration and the defaults;
- the contact handlers. Create, update and soft delete are methods of a
  `ContactStore` class that owns the contact table. List (with search, tag,
  newest-first sort and pagination), get-by-id and statistics are functions
  of that table;
- registration and login. `Register` is a method of an `AuthStore` class that
  owns the tenant and user tables. `Login` is a function of those tables.

Modules, one per file:

| file | module | models |
|---|---|---|
| `wrappers.dfy` | `Wrappers` | `Option` and `Result` |
| `text.dfy` | `Text` | JavaScript `trim`, ASCII `toLowerCase`, case-insensitive substring search |
| `contact_model.dfy` | `ContactModel` | `src/models/Contact.js` |
| `user_model.dfy` | `UserModel` | `src/models/User.js` |
| `tokens.dfy` | `Tokens` | `jwt.sign` and `jwt.verify` as an abstract signature |
| `contact_queries.dfy` | `ContactQueries` | the Mongoose queries the contact handlers issue, over an in-memory table |
| `contact_controller.dfy` | `ContactController` | `src/controllers/contactController.js` |
| `auth_controller.dfy` | `AuthController` | `src/controllers/authController.js` |

The environment is passed in as parameters:

- the clock (`Date.now()`) is the parameter `now`;
- `bcrypt.hash` is the function parameter `hash`;
- `bcrypt.compare` is the function parameter `matches`;
- the JWT secret is the parameter `key`;
- ids come from counters (`nextId`, `nextTenantId`, `nextUserId`) kept by the
  stores, in place of ObjectIds.

The model follows the code wherever a plain-language reading of the system
says something different:

- Soft delete goes through `findOneAndUpdate`. The schema has
  `timestamps: true`, so soft delete also bumps `updatedAt`, not only
  `isActive` (`Deactivated`).
- Registration is not atomic. If the admin user fails validation after the
  tenant was saved, the tenant stays saved and the reply is 500 (`Register`).
- The per-tenant duplicate-email check runs on create only. The
  `(tenantId, email)` index is not unique, so an update can give two contacts
  of one tenant the same email (`UpdateCanDuplicateEmail`).
- The duplicate check on create also finds soft-deleted contacts. Their email
  cannot be reused.
- `hasNext` is computed as `skip + contacts.length < total`. The model proves
  that this holds exactly when `page < totalPages` (`HasNextIffNotLastPage`).

## Model

| member | source | states |
|---|---|---|
| Text.Trim | src/models/Contact.js:14-18 | the `trim: true` setter: the result has no white space at either end; the input is the result with only white space before and after it; a trimmed string is left unchanged |
| Text.Lower | src/models/Contact.js:19-24 | the `lowercase: true` setter: the same length, each character lower-cased, no upper-case letter left, lower-case input unchanged |
| Text.NormalizeEmail | src/models/User.js:9-15 | what `trim` followed by `lowercase` stores for an email: exactly the lower-cased trimmed input, which is normalised, unchanged if the input is already normal, and empty exactly when the input is blank |
| Text.ContainsAt | src/controllers/contactController.js:44-51 | the substring test behind the `$regex` search holds exactly when the pattern occurs at some offset |
| Text.MatchesIgnoringCase | src/controllers/contactController.js:44-51 | a `$regex` with option `i` on a literal pattern: holds exactly when the lower-cased pattern occurs in the lower-cased field; the empty pattern matches every field |
| ContactModel.TrimAddress | src/models/Contact.js:38-44 | each of street, city, state, zip code and country is its trimmed value when present and absent when absent; a trimmed address is unchanged |
| ContactModel.TrimOpt | src/models/Contact.js:30-48 | an optional string field (company, position, notes) is its trimmed value when present and stays absent when absent |
| ContactModel.TrimTags | src/models/Contact.js:49-52 | each tag is trimmed, with order and count kept |
| ContactModel.Normalize | src/models/Contact.js:14-52 | what the setters store, field by field: name and phone trimmed, email trimmed and lower-cased, each optional field and address part trimmed when present, each tag trimmed; the result is normalised and normalising again changes nothing |
| ContactModel.NewContact | src/models/Contact.js:14-56 | a contact is created exactly when name, email and phone are non-empty once trimmed; it is well formed, carries the given ids, is active by default and has `createdAt == updatedAt == now` |
| ContactModel.Patch | src/controllers/contactController.js:104-111 | each field named by the patch becomes its value as the setters store it, and each field it does not name keeps its stored value; the result stays normalised; a valid patch keeps required fields non-empty; the empty patch changes nothing |
| ContactModel.FullPatchReplaces | src/controllers/contactController.js:110 | a complete update body stores exactly what creation would store |
| ContactModel.Patched | src/controllers/contactController.js:104-112 | the stored fields become the patch applied to them; id, tenant, owner, `isActive` and `createdAt` are kept; `updatedAt` becomes `now`; a valid patch keeps a contact well formed |
| ContactModel.Deactivated | src/controllers/contactController.js:131-138 | only `isActive` (to false) and `updatedAt` change |
| UserModel.RoleName | src/models/User.js:20-24 | each role is stored as one of "admin", "manager", "user" and parses back to itself |
| UserModel.ParseRole | src/models/User.js:20-24 | the enum validator accepts exactly the three spellings |
| UserModel.NewUser | src/models/User.js:4-24 | a user is created exactly when the email is non-blank, the password non-empty and the role in the enum; the email is normalised; the role defaults to "user" |
| UserModel.FindByEmail | src/controllers/authController.js:11 | `User.findOne({ email })` finds a user with the normalised email, or none exactly when no user has it |
| UserModel.FindEmailAppended | src/controllers/authController.js:35 | after a user with a fresh email is saved, a lookup of that email finds that user |
| UserModel.InsertUnique | src/models/User.js:9-15 | the unique index accepts an insert exactly when the email is not stored yet, and then keeps emails unique |
| Tokens.Sign | src/controllers/authController.js:37-45 | a signed token verifies under the same key to its payload |
| Tokens.Verify | src/controllers/authController.js:37-45 | verification succeeds exactly when the key matches, and then returns the signed payload |
| Tokens.WrongKeyRejected | src/controllers/authController.js:43 | a token does not verify under another key |
| ContactQueries.Select | src/controllers/contactController.js:57 | `find(filter)` returns exactly the records of the table that match the filter |
| ContactQueries.Matches | src/controllers/contactController.js:41-55 | a record matches a query only when it is of the query's tenant, a query with no other condition matches every record of its tenant, and an `isActive: true` query never matches an inactive record |
| ContactQueries.SearchHit | src/controllers/contactController.js:44-51 | the `$or` search holds exactly when the lower-cased pattern occurs in the lower-cased name, email, company (when present) or phone; an empty pattern matches every contact |
| ContactQueries.SelectThroughOwned | src/controllers/contactController.js:42 | every query of a tenant is a query on that tenant's own records |
| ContactQueries.Locate | src/controllers/contactController.js:104-109 | the position of the first record matching `{ _id, tenantId, isActive: true }`, or none exactly when no record matches |
| ContactQueries.FindOne | src/controllers/contactController.js:84-88 | `findOne` returns an active record of the tenant with that id, or none exactly when there is none |
| ContactQueries.FindOneIsFirstSelected | src/controllers/contactController.js:84-88 | `findOne` returns the first record `find` would return for the same filter |
| ContactQueries.SortDesc | src/controllers/contactController.js:181 | `$sort` descending returns a permutation of its input |
| ContactQueries.SortDescSorted | src/controllers/contactController.js:181 | the sorted output has non-increasing keys |
| ContactQueries.InsertDescSorted | src/controllers/contactController.js:181 | inserting into a descending sequence keeps it descending |
| ContactQueries.NewestFirst | src/controllers/contactController.js:59 | `sort({ createdAt: -1 })` returns a permutation ordered by non-increasing `createdAt` |
| ContactQueries.Window | src/controllers/contactController.js:60-61 | `skip(k).limit(n)` returns the records at offsets `k`, `k+1`, … of its input, at most `n` of them |
| ContactController.ErrorReply | src/controllers/contactController.js:18-31 | duplicate email is answered 400, not found 404, internal errors 500 |
| ContactController.ListFilter | src/controllers/contactController.js:40-55 | the list filter is the tenant's active records; an absent or empty search or tag adds no condition; a non-empty search is used as given; a non-empty tag is matched as the `tags` setter stores it, trimmed |
| ContactController.TotalPages | src/controllers/contactController.js:69 | `Math.ceil(total / limit)`: the least page count whose pages hold all records |
| ContactController.Skip | src/controllers/contactController.js:39 | `(page - 1) * limit`: nothing is skipped on page 1, and each further page skips `limit` more records |
| ContactController.PageCount | src/controllers/contactController.js:58-61 | the number of records on a page is at most `limit`, and zero exactly when the page starts at or beyond the last record |
| ContactController.HasNextIffNotLastPage | src/controllers/contactController.js:71-72 | `skip + contacts.length < total` holds exactly when the page is not the last one by `Math.ceil(total / limit)` |
| ContactController.PageMeta | src/controllers/contactController.js:65-73 | the `pagination` object: the requested page, the ceiling page count, the total; `hasPrev` exactly when `page > 1`; `hasNext` exactly when the page is before the last |
| ContactController.ListContacts | src/controllers/contactController.js:38-74 | the page holds at most `limit` of the tenant's active matching contacts, newest first, from offset `(page-1)*limit`; the page holds exactly `PageCount` records; `totalContacts` counts all matches; `totalPages` is `Math.ceil(total / limit)`; `hasPrev` iff `page > 1`; `hasNext` iff `page < totalPages`; the whole `pagination` object is `PageMeta` of the match count |
| ContactController.ListContactsQuery | src/controllers/contactController.js:38 | an absent `page` is 1 and an absent `limit` is 10: the reply is the list reply for the page and limit with those defaults applied; the first page has no previous page, and a page without a given limit holds at most 10 contacts |
| ContactController.FifteenContactsSecondPage | src/controllers/contactController.js:38-72 | with 15 matches, page 2 of size 10 returns the last 5, two pages in all, no next page and a previous one |
| ContactController.GetContact | src/controllers/contactController.js:82-99 | the tenant's active contact with that id, or 404 exactly when there is none |
| ContactController.Companies | src/controllers/contactController.js:174-179 | the `$group` keys: each company of a matched contact, once |
| ContactController.Groups | src/controllers/contactController.js:174-179 | one `{ _id: company, count }` entry per company key, its count the number of the tenant's active contacts at that company |
| ContactController.Ranked | src/controllers/contactController.js:174-182 | the groups, permuted into non-increasing count |
| ContactController.GroupEntries | src/controllers/contactController.js:166-179 | each group names a non-empty company with at least one active contact, and its count is the number of the tenant's active contacts at it |
| ContactController.RankedEntries | src/controllers/contactController.js:166-182 | every ranked entry is such a counted company |
| ContactController.RankedComplete | src/controllers/contactController.js:166-182 | every company of an active contact is ranked |
| ContactController.RankedDistinct | src/controllers/contactController.js:174-179 | no company is ranked twice |
| ContactController.TopFive | src/controllers/contactController.js:166-186 | the `$match`, `$group`, `$sort` and `$limit: 5` pipeline: at most five companies without repeats, each with the number of the tenant's active contacts at it, by non-increasing count |
| ContactController.TopCompaniesComplete | src/controllers/contactController.js:180-185 | a company with active contacts is listed, or all five listed companies have at least its count |
| ContactController.ContactStats | src/controllers/contactController.js:153-199 | `totalContacts` counts the tenant's active contacts; `recentContacts` counts those created in the last seven days and is at most the total; `topCompanies` is the five-company ranking |
| ContactController.ReadsSeeOnlyOwnTenant | src/controllers/contactController.js:36-199 | get, list and stats give equal answers on any two tables that hold the same records for the tenant |
| ContactController.EmailTaken | src/controllers/contactController.js:13-16 | the duplicate check finds a contact exactly when some contact of the tenant, active or not, stores the normalised email |
| ContactController.NotTakenMeansFree | src/controllers/contactController.js:12-16 | when the duplicate check finds nothing, no contact of the tenant has that email |
| ContactController.AppendKeepsEmailsUnique | src/controllers/contactController.js:12-23 | storing a contact with an email its tenant does not use keeps emails unique per tenant |
| ContactController.UpdateCanDuplicateEmail | src/controllers/contactController.js:104-111 | a valid update can give a contact the email of another contact of its tenant, after which emails are no longer unique per tenant |
| ContactController.ContactStore.CreateContact | src/controllers/contactController.js:4-33 | a duplicate email in the tenant gives 400 and changes nothing; a missing required field gives 500 and changes nothing; when the email is free and the required fields are present the create succeeds, and the new contact is appended under the caller's tenant and user; other tenants' records are unchanged; per-tenant email uniqueness is preserved |
| ContactController.ContactStore.UpdateContact | src/controllers/contactController.js:102-126 | an empty required field gives 500; no active contact of the tenant with that id gives 404; otherwise exactly that record is replaced by its patched version; other tenants' records are unchanged |
| ContactController.ContactStore.DeleteContact | src/controllers/contactController.js:129-150 | no active contact of the tenant with that id gives 404; otherwise exactly that record is deactivated and kept, after which get-by-id no longer finds it; other tenants' records are unchanged |
| AuthController.FindTenantByName | src/controllers/authController.js:17 | `Tenant.findOne({ name })` finds a tenant with that name, or none exactly when no tenant has it |
| AuthController.FindTenantById | src/controllers/authController.js:68 | `populate("tenantId")` finds the user's tenant, or none exactly when it is gone |
| AuthController.SessionFor | src/controllers/authController.js:78-98 | the token verifies to the user's id, tenant and role; the reply carries the same |
| AuthController.Login | src/controllers/authController.js:64-103 | unknown email gives 404 and a wrong password 400, both "Invalid credentials"; a known email with the right password whose tenant exists always succeeds; a success carries a token for the stored user's id, tenant and role, and that user's profile; a 500 happens only when the user's tenant is missing |
| AuthController.LoginNeverFailsInternally | src/controllers/authController.js:68-98 | on valid tables a login either succeeds or is refused with "Invalid credentials" |
| AuthController.RegisteredUserCanLogIn | src/controllers/authController.js:68-98 | a user stored by registration can log in with the password whose hash was stored, and gets the session registration returned |
| AuthController.NewAdmin | src/controllers/authController.js:29-35 | the admin user is created exactly when the email is non-blank and the hash non-empty, with role admin, the new tenant and the normalised email |
| AuthController.AddTenantKeepsValid | src/controllers/authController.js:16-26 | saving a tenant under a fresh id and an unused name keeps tenant ids and names unique |
| AuthController.AddUserKeepsValid | src/controllers/authController.js:29-35 | saving a well-formed user with a fresh id and email in an existing tenant keeps the user table valid |
| AuthController.AuthStore.SaveTenant | src/controllers/authController.js:25-26 | the tenant is appended and can then be found by id; users are untouched |
| AuthController.AuthStore.SaveUser | src/controllers/authController.js:29-35 | the user is appended; tenants are untouched |
| AuthController.AuthStore.Register | src/controllers/authController.js:6-62 | a taken email gives 400 and changes nothing; a taken tenant name gives 400 and changes nothing; otherwise the tenant is saved; then either the admin user is saved and 201 returns its session, or 500 is returned with the tenant kept |

## Left out

- HTTP routing, the request and response objects, and the `message` strings of success replies are not modelled. Replies are `Result` values carrying the status and error text.
- The authentication middleware that sets `req.tenantId` and `req.user` (`src/middleware/auth.js`) is not part of this model. The handlers take the tenant and user as parameters.
- The request validation middleware (`src/middleware/validation.js`) is not modelled.
- `src/models/Tenant.js` is not part of this model. A tenant is its id, its exact name and a creation time.
- `populate("userId", "email")` on contacts is not modelled. It only decorates the reply.
- The `catch` branches that turn database failures into 500 are modelled only where the model can see the failure: a failed required validator on create or update, a user failing validation on register, and a missing tenant on login.
- Concurrency is not modelled. Each handler runs alone, so the race between the duplicate check and the save is not captured.
- Registration is not atomic in the source, and the model does not claim it is.
- `bcrypt` and `jsonwebtoken` are abstract. Hashing and password comparison are parameters. A token is its payload plus the key that signed it. Token expiry (`expiresIn: "7d"`) is not modelled.
- Query strings are not coerced. `page` and `limit`, when given, are natural numbers of at least 1, and an absent one takes its default of 1 or 10 (`ListContactsQuery`). A non-numeric value, or a `page` or `limit` of 0 or less, is excluded by `requires page >= 1 && limit >= 1` on `ListContacts` and `PageMeta`, and by `requires page >= 1` on `Skip` and `PageCount`.
- ContactModel.ContactPatch: an update body holds only the contact's own fields. The source passes `req.body` through to `findOneAndUpdate`, so a body could also set `tenantId`, `userId` or `isActive`. The model does not capture that.
- ContactStore.CreateContact: likewise, the create body holds only the contact's own fields. In the source, `tenantId` and `userId` are overwritten after the body is spread, and any other field of the body, such as `isActive`, is stored as given.
- Missing required fields are not modelled. `name`, `email`, `phone` and `tags` are always present in a body, possibly empty; `company`, `position`, `notes` and each address part are `Option`s and may be absent. An absent `email` in the duplicate check is therefore not captured.
- ContactQueries.SearchHit: the `$regex` search is modelled as a case-insensitive literal substring test. Regular-expression metacharacters in the search text are not interpreted.
- Text.Lower: `toLowerCase` is modelled on ASCII letters only. Unicode case mapping is not modelled.
- Tie order is not modelled. Mongo leaves the order of equal keys unspecified under `sort({ createdAt: -1 })` and `$sort: { count: -1 }`. The model fixes one order, and its contracts state only the non-increasing order and the permutation.
- ObjectId casting of `req.params.id` is not modelled. An invalid id string would throw a cast error and give 500. In the model, ids are natural numbers.
- Dates are integers in milliseconds.
