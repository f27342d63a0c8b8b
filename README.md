# serverLab2 data-access core, modelled in Dafny

This project models the sequential logic of a GraphQL server over a
Mongoose store of users and companies:

- the batch functions of the two loaders (`companyLoader` and
  `usersByCompanyLoader`), which turn the keys collected in one tick into
  one bulk read and realign or group the records read back per key;
- the field-projection derivation that turns the requested field names
  into a selection map (`company` is read through `companyId`);
- the nested resolvers `User.company` and `Company.users`, which either
  skip the loader or issue exactly one load;
- the root queries and mutations, over a store of two maps from `_id` to
  document, with their existence checks and their `||` field merges.

Modules: `Wrappers` (Option, Result), `Js` (JavaScript values, truthiness,
`||`), `Records` (the two documents), `Selection` (projection
derivation), `Loaders` (batch functions), `Types` (nested resolvers),
`Schema` (the store class with the queries and mutations).

Ids are strings, since every comparison in the code is made on
`toString()` values. `mongoose.Types.ObjectId.isValid` is a function
parameter `isValid` with no assumed properties. A bulk read is an input
sequence: the records the database returned, in its order; the lemmas that
need it assume the read honours the query's filter
(`Loaders.MatchesCompanyQuery`, `Loaders.MatchesUsersQuery`).

The store keeps every document under its own `_id` (`Store.Valid`), and
`createUser`, `updateUser`, `deleteUser`, `createCompany` and
`updateCompany` keep every truthy `companyId` pointing at a stored
company (`Store.ReferencesResolve`). `deleteCompany` does not: it leaves
the users of the deleted company referring to it, as the code does.

The loader library caches loads by key identity, and `User.company` builds
a fresh key object for every call, so equal company keys are never merged
and a company batch may hold the same id several times. The model takes the
key sequence as it is, duplicates included, and proves that duplicates get
the same record.

## Model

| member | source | states |
|---|---|---|
| `Js.Or` | schema/schema.js:104-106 | JavaScript's logical or yields one of its operands: the left one when truthy (undefined, null, "" and 0 are falsy), else the right one |
| `Js.Interpolate` | schema/schema.js:29 | a template literal `${id}` gives the id string itself for a string id, and "undefined" or "null" otherwise |
| `Selection.StorageName` | schema/types.js:23-24 | `company` is read as `companyId`, every other field as itself, and `company` is never a stored name |
| `Selection.BuildSelections` | schema/types.js:20-25 | the in-place `forEach` fill yields exactly: `companyId` iff `company` was requested, every other requested name except `company`, each mapped to 1, nothing else |
| `Selection.SelectionMapKeys` | schema/schema.js:21-26 | the selection map's keys are the requested names (minus `company`) plus `companyId` iff `company` was requested; every value is 1 |
| `Selection.SelectionMapIgnoresOrderAndRepeats` | schema/schema.js:36-41 | two field lists with the same names give the same selection map, whatever the order or repetition |
| `Loaders.KeyIds` | loaders/loaders.js:6 | one id per key, in key order, duplicates kept |
| `Loaders.ValidIds` | loaders/loaders.js:8-10 | the filtered ids are exactly the ids that pass the validity check; none is added |
| `Loaders.ValidIdsConcat` | loaders/loaders.js:8-10 | the validity filter distributes over concatenation, so the valid ids keep their order in the batch |
| `Loaders.CompanyRequest` | loaders/loaders.js:5-13 | the bulk read's filter holds only valid ids of the batch, holds every valid id of the batch, and the projection is the first key's `selectionsField`, later keys' being ignored |
| `Loaders.FindById` | loaders/loaders.js:16 | absent iff no read record has the id; otherwise the record at the first position with that id |
| `Loaders.CompanyResults` | loaders/loaders.js:15-17 | as many entries as keys; entry i is the first read record whose id is key i's id, or absent (not an error) when none is |
| `Loaders.CompanyEntryDependsOnIdOnly` | loaders/loaders.js:15-17 | entry i depends on key i's id alone: keys with equal ids, duplicates in one batch included, get the same record whatever their projection or position |
| `Loaders.InvalidIdResolvesAbsent` | loaders/loaders.js:8-17 | an id failing the validity check is not in the read's filter and, for a read honouring the filter, its entry is absent |
| `Loaders.UsersOf` | loaders/loaders.js:25 | the group holds exactly the read users whose `companyId` is the key, each as many times as in the read, and is empty iff the read has none |
| `Loaders.UsersOfConcat` | loaders/loaders.js:25 | grouping distributes over concatenation of the read, so the read's order is kept within a group |
| `Loaders.UsersBatch` | loaders/loaders.js:20-27 | one group per requested company id, in key order; group i is the filter of the read by key i |
| `Loaders.UsersBatchSizesSumToRead` | loaders/loaders.js:22-26 | with distinct keys and a read honouring its filter, the group sizes add up to the read's length |
| `Loaders.UsersBatchExactlyOneGroup` | loaders/loaders.js:22-26 | with distinct keys and a read honouring its filter, every read user is in one group and in no other |
| `Types.ResolveUserCompany` | schema/types.js:19-31 | a user with a falsy `companyId` resolves to null and issues no load; otherwise exactly one load with key (`companyId`, derived projection), whose value is the result; the projection never holds `company` |
| `Types.ResolveCompanyUsers` | schema/types.js:45-46 | exactly one load, keyed by the company's `_id`, whose value is the result |
| `Types.CompanyUsersFromBatch` | schema/types.js:45-46 | served by a users batch, a company gets exactly its users of the read, and an empty list, never absent, when it has none |
| `Schema.MergeUser` | schema/schema.js:104-106 | each of `firstName`, `age`, `companyId` is the argument when truthy, else the stored value; the id is kept |
| `Schema.MergeUserIdempotent` | schema/schema.js:101-109 | applying the same update twice gives the same document as applying it once |
| `Schema.MergeUserFalsyKeeps` | schema/schema.js:104-106 | an update whose arguments are all falsy (`""`, `0`, null, undefined) leaves the user unchanged |
| `Schema.Message` | schema/schema.js:92-98 | the not-found messages frame the interpolated id as "Can't find the user with id (...)" or "Can't find the company with id (...)"; a dangling `companyId` argument gives "Company not found" |
| `Schema.MessageNamesId` | schema/schema.js:28-29 | a not-found message names its id: two user messages, or two company messages, that read the same were raised for the same id |
| `Schema.MergeCompany` | schema/schema.js:147-148 | each of `name`, `slogan` is the argument when truthy, else the stored value; the id is kept |
| `Schema.Store.QueryUser` | schema/schema.js:20-31 | the stored user with that id, or an error naming the id; the selection is the derived selection map |
| `Schema.Store.QueryUsers` | schema/schema.js:35-43 | exactly the stored users, read with the derived selection map |
| `Schema.Store.QueryCompany` | schema/schema.js:48-53 | the stored company with that id, or an error naming the id |
| `Schema.Store.QueryCompanies` | schema/schema.js:57-59 | exactly the stored companies |
| `Schema.Store.CreateUser` | schema/schema.js:74-81 | a truthy `companyId` naming no company is an error and nothing is stored; otherwise the arguments are stored under the new id; references stay resolvable |
| `Schema.Store.UpdateUser` | schema/schema.js:91-111 | a missing user is an error naming the id, checked before the company; a truthy `companyId` naming no company is an error; otherwise the merged document replaces the user; on error nothing changes; references stay resolvable |
| `Schema.Store.DeleteUser` | schema/schema.js:116-121 | removes and returns the user with that id, or an error naming the id with the store unchanged; an omitted id removes and returns some stored user (an error only when there is none); references stay resolvable |
| `Schema.Store.CreateCompany` | schema/schema.js:129-131 | stores the arguments as a new company under the new id; users unchanged |
| `Schema.Store.UpdateCompany` | schema/schema.js:140-152 | a missing company is an error naming the id with the store unchanged; otherwise the merged document replaces it |
| `Schema.Store.DeleteCompany` | schema/schema.js:157-162 | removes and returns the company with that id, or an error naming the id with the store unchanged; an omitted id removes and returns some stored company (an error only when there is none); users are left as they are |

## Left out

- The loader library (`dataloader`): tick-based scheduling, the per-key promise cache, deduplication of identical keys and the fan-out of a failed batch to every caller. A resolver sees a loader through a `load` function parameter; a batch function sees its keys as a given sequence, possibly with duplicates.
- The module-level loader instances and the request context that carries them (server.js, loaders/loaders.js:5 and 20): lifetime and sharing, not logic. server.js is not part of this model otherwise (HTTP, CORS, environment, database connection).
- Mongoose query execution: `find`, `findById`, `select`, `create`, `findByIdAndUpdate` and `findByIdAndDelete` become map lookups and updates, and a bulk read is an input sequence. Applying a selection map to a document is the database's job: `Store.QueryUser` returns the stored document beside the selection map it would be read with.
- `ObjectId.isValid` is a parameter; no property of it is assumed.
- Cast errors: Mongoose throws a cast error for an id that is not a well-formed ObjectId; the model reports such an id as not found (an error, with the store unchanged, either way), and stores a non-ObjectId `companyId` as given.
- Which document an omitted id deletes: `findByIdAndDelete` filters on `{ _id: id }`, and Mongoose drops an undefined value from a filter, so `Schema.Store.DeleteUser` and `Schema.Store.DeleteCompany` remove some stored document for an omitted id; the database's choice among them is not modelled.
- Generation of new ObjectIds: `Store.CreateUser` and `Store.CreateCompany` take the new id as a parameter that must be unused.
- A failing database read (a batch-fetch failure) and the `async`/`await` sequencing, including the race between `findById` and `findByIdAndUpdate` in `updateUser` and `updateCompany`.
- `graphql-fields-list`'s `fieldsList`: the requested fields are an input sequence. GraphQL type and schema construction and `GraphQLError` formatting are left out; `Schema.Message` gives only the message texts.
- `GraphQLInt`'s 32-bit range: GraphQL rejects out-of-range integers before a resolver runs, so `age` is an unbounded integer here.
- `console.log` calls, and the `database/*` files, which are not part of this model.
- `Loaders.UsersOf`: compares a user's `companyId` with the key as strings; a user without a `companyId` would make `toString()` throw in the code, which a read honouring its filter never returns.
