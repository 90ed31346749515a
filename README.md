# Model Forge server: verified model of the catalog and purchase routes

The service is a small Express API over two MongoDB collections. `models` is a catalog of
AI-model listings. `purchases` is a log of purchase events. This project models three parts
of it:

- the catalog routes under `/api/models`:
  - create;
  - list with a name search, a framework filter and paging;
  - latest six;
  - mine;
  - get, update and delete by id;
  - purchase;
- the purchase routes under `/api/purchases`:
  - the caller's purchases, joined with their records;
  - the purchases of one record;
- the Firebase bearer-token gate in front of the private routes.

Modules, from the bottom up:

| module | file | what it holds |
|---|---|---|
| `Wrappers` | wrappers.dfy | `Option` |
| `Seqs` | seqs.dfy | `Filter`, `Reverse` and `Window` (skip then limit) over sequences; strict orderings by a key; the descending order of a set of records is unique |
| `Text` | text.dfy | JavaScript `trim`, `split` on one character, `String(n)`, and the name filter |
| `ObjectIds` | object_ids.dfy | the 24-hex-digit identifier syntax, parsing, and `toHexString` |
| `Domain` | domain.dfy | JSON values, records, purchases, the caller identity, route outcomes, the `|| 'unknown'` attribution, and lookup by id |
| `Auth` | auth.dfy | the token gate: its load-time mode and its per-request decision |
| `Catalog` | catalog.dfy | everything the catalog routes decide without writing: the create draft and its validation loop, the update sanitiser loop, the `:id` checks, and the listings |
| `Store` | store.dfy | class `ModelStore`, whose fields are the two collections and a clock; its methods are the four writing handlers |
| `Purchases` | purchases.dfy | the aggregation pipeline of `/purchases/mine`, and `/purchases/by-model/:id` |
| `Routes` | routes.dfy | each private route: the gate, then the handler |

How the model represents things:

- **Records.** A catalog record keeps its system fields as named fields: `_id`, `createdBy`,
  `createdAt` and `purchased`. Its user fields are a map from key to JSON value, because an
  owner's update may `$set` any key.
- **Time and order.** Time is a natural number. The store holds a clock, and every handler that
  writes is given a later `now`. Both collections are therefore kept in insertion order with
  strictly increasing time stamps. So `sort({ createdAt: -1 })` and `sort({ purchasedAt: -1 })`
  are the reverse of insertion order. `Seqs.DecreasingUnique` and `Catalog.NewestFirstIsTheSort`
  prove that this reverse is the only newest-first arrangement.
- **Store invariant.** `Store.ModelStore.Valid` holds after every handler. It says:
  - identifiers are unique;
  - time stamps increase with insertion order, and none is later than the clock;
  - no record's user fields hold a system key or a null value;
  - each record's `purchased` counter equals the number of purchases that reference it and were
    made after it was created. A purchase of an id no record has is still stored, so older
    purchases may name an id before a record gets it; those never reach that record's counter.

Behaviour that follows the code and may surprise:

- The driver is created with `ignoreUndefined` (db.js). A request that carries no email has the
  filter `{ createdBy: undefined }` or `{ purchasedBy: undefined }`, which becomes the empty
  filter. So `/mine` and `/purchases/mine` then list every record or purchase. This happens
  when authentication is bypassed, or when a verified token has no email claim. `Catalog.Mine`,
  `Purchases.Mine` and `Routes.MyModels` state this case explicitly.
- With authentication bypassed no identity is attached. So update and delete answer 403 for
  every existing record (`Routes.BypassForbidsOwnerRoutes`).
- A purchase with a well-formed id is recorded before the record is looked up. The purchase of a
  missing record is therefore kept, and the answer is 404 (`Store.ModelStore.Purchase`).
- Any signed-in caller may read the purchases of any record (`Routes.PurchasesOf`).

## Model

| member | source | states |
|---|---|---|
| `Auth.LoadGate` | middleware/verifyFirebaseToken.js:3-16 | The gate enforces unless `FIREBASE_DISABLE_AUTH` is exactly `true`. The provider is ready only when enforcing and a project id is set. |
| `Auth.EnforcingByDefault` | middleware/verifyFirebaseToken.js:3-4 | An unset flag, or any value other than `true`, keeps authentication on. |
| `Auth.BearerToken` | middleware/verifyFirebaseToken.js:22-24 | There is a token exactly when the header starts with `Bearer ` and has something after it. Prefix plus token gives back the header. |
| `Auth.Authenticate` | middleware/verifyFirebaseToken.js:18-31 | Bypass admits every request with no identity. When enforcing: a missing or empty token gives 401 `Missing token`; a token the verifier refuses gives 401 `Invalid token`; a token the ready provider verifies is admitted carrying exactly the decoded identity, and only such a token is admitted; with no provider every token gives 401 `Invalid token`, because reaching the uninitialised provider throws inside the `try`. |
| `Auth.BareBearerIsMissing` | middleware/verifyFirebaseToken.js:23-24 | The header `Bearer ` alone counts as a missing token. |
| `Text.Trim` | routes/models.js:20-25 | `trim()` leaves no white space at either end. It is empty exactly when the input is all white space. It is a contiguous slice of the input, and everything it drops before and after that slice is white space. |
| `Text.TrimUnspaced` | routes/models.js:20-25 | A string with no white space at either end trims to itself. |
| `Text.TrimIdempotent` | routes/models.js:20-25 | Trimming twice is trimming once. |
| `Text.Split` | routes/models.js:52 | `split(',')` gives at least one piece, and no piece contains the separator. |
| `Text.JoinSplit` | routes/models.js:52 | Joining the pieces of a split with the separator gives the input back. |
| `Text.SplitJoin` | routes/models.js:52 | Splitting a join of separator-free pieces gives the pieces back. |
| `Text.NameMatchIgnoresCase` | routes/models.js:51 | The name filter ignores case on both sides, and every name matches itself. |
| `Text.NameMatches` | routes/models.js:51 | The name filter holds exactly when, at some offset of the name, every character of `q` equals the name's character there up to ASCII case. |
| `Text.Decimal` | routes/models.js:20-25 | `String(n)` of an integer is canonical: an optional minus sign, then decimal digits with no leading zero that denote the magnitude of `n` (zero is the single digit `0`). It has no white space at either end, so trimming keeps it. |
| `Text.Digits` | routes/models.js:20-25 | The digits of a natural number have no leading zero and denote that number. |
| `ObjectIds.ParseId` | routes/models.js:100 | An id is accepted exactly when it is 24 hexadecimal digits. |
| `ObjectIds.ToHex` | routes/models.js:37 | The text form of every identifier is a valid id. |
| `ObjectIds.ParseToHex` | routes/models.js:101 | Parsing the text form of an identifier gives the identifier back. |
| `Domain.ToText` | routes/models.js:20-25 | `String(v \|\| '')` is empty exactly when `v` is falsy, and it is the string itself for a string. |
| `Domain.Attribution` | routes/models.js:16 | `req.user?.email \|\| 'unknown'` is never empty. It is the caller's email whenever that is non-empty, and `unknown` otherwise. |
| `Domain.IndexOfId` | routes/models.js:101 | `findOne({ _id })` finds a record with that id, and finds none exactly when no record has it. |
| `Domain.IsOwner` | routes/models.js:120 | `existing.createdBy === req.user?.email`: no identity, or one without an email claim, owns nothing, and an owner is the name its own new records are attributed to. |
| `Domain.CreatorOwnsIff` | routes/models.js:16 | A caller owns the records it creates exactly when its identity carries a non-empty email. Records attributed to `unknown` stay forbidden to such a caller. |
| `Domain.PurchaseCountZero` | routes/models.js:177 | The number of purchases of an id made after a given time is zero exactly when no purchase of that id is later than that time. |
| `Domain.PurchaseCountAppend` | routes/models.js:170-177 | Recording one purchase adds one to the count of its record if it is later than the record's creation, and nothing to any other count. |
| `Catalog.FieldText` | routes/models.js:20-25 | A field's draft text is empty exactly when the body value is falsy or all white space. It is the trimmed string for a string value. |
| `Catalog.Draft` | routes/models.js:19-25 | The draft holds exactly the six user fields, each being that field's trimmed text. |
| `Catalog.FirstMissing` | routes/models.js:32-34 | The validation loop finds nothing exactly when all six fields are filled in. Otherwise it names the first blank one, in the order name, framework, useCase, dataset, description, image. |
| `Catalog.CreatedFields` | routes/models.js:19-29 | A new record's user fields are the six draft texts. |
| `Catalog.CreatedFieldsWellFormed` | routes/models.js:19-29 | A new record's user fields hold no system key and no null. |
| `Catalog.Sanitize` | routes/models.js:122-126 | The patch keeps a key exactly when the body has it, it is not `_id`, `purchased`, `createdBy` or `createdAt`, and its value is neither null nor undefined. Kept values are the body's. |
| `Catalog.Merge` | routes/models.js:128 | `$set` gives every patched key its new value and leaves every other field as it was. Well-formed fields stay well formed. |
| `Catalog.Locate` | routes/models.js:115-119 | A malformed id gives 400 before any lookup. An id no record has gives 404. Otherwise the result is the position of the record with that id. |
| `Catalog.GetById` | routes/models.js:97-103 | `GET /:id` answers 400 `Invalid id` exactly for a malformed id, 404 `Not found` exactly when no record has the id, and otherwise the stored record with that id. |
| `Catalog.LocateOwned` | routes/models.js:115-120 | The update and delete checks run in order: 400, then 404, then 403 exactly when the caller's email is not the creator. The creator gets through to the record's position. |
| `Catalog.NewestFirst` | routes/models.js:58 | Newest first is a permutation of the records, in strictly decreasing `createdAt`. |
| `Catalog.NewestFirstIsTheSort` | routes/models.js:58 | Any newest-first arrangement of the records equals `NewestFirst`. |
| `Catalog.PageNumber` | routes/models.js:49-54 | The page defaults to 1 and is at least 1. A page of 1 or more is kept as given. |
| `Catalog.PageSize` | routes/models.js:49-55 | The limit defaults to 12. It is `max(1, min(48, limit))`: a limit in range is kept, one above 48 gives 48, one below 1 gives 1. |
| `Catalog.Matching` | routes/models.js:50-52 | The filter keeps exactly the records whose name matches `q` and whose framework is one of the listed ones, in store order. |
| `Catalog.PageCount` | routes/models.js:60 | `pages` is `ceil(total / l)`: the least number of pages of `l` that hold `total` records. |
| `Catalog.Skip` | routes/models.js:58 | `(p - 1) * l` skips exactly `p - 1` whole pages. |
| `Catalog.List` | routes/models.js:47-60 | `total` counts every match. `items` are the `l` matches from position `(p-1)*l` of the newest-first order, or fewer on the last page. `page` and `pages` are reported as computed. |
| `Catalog.PagingArithmetic` | routes/models.js:58-60 | Page `p` starts before the end exactly when `p <= pages`. A page before the last has more than `l` matches from its start on. |
| `Catalog.PageFilledIff` | routes/models.js:58-60 | A listed page holds records exactly when `page <= pages`. It is full unless it is the last. |
| `Catalog.EveryMatchOnItsPage` | routes/models.js:58 | Paging loses nothing: the `j`-th match is item `j % l` of page `j / l + 1`. |
| `Catalog.ThirdPageOfTwentyFive` | routes/models.js:54-60 | With 25 matches and the default limit, page 3 holds one record of 3 pages. |
| `Catalog.Latest` | routes/models.js:72 | `/latest` returns the last six records inserted, or all of them if there are fewer, newest first. |
| `Catalog.LatestAreNewest` | routes/models.js:72 | `/latest` is in decreasing `createdAt`, and no record left out is newer than one returned. |
| `Catalog.CreatedBy` | routes/models.js:86 | `find({ createdBy: email })` keeps exactly the caller's records. With no email it keeps all of them. |
| `Catalog.Mine` | routes/models.js:83-87 | `/mine` lists exactly the caller's records (all records when there is no email), newest first. |
| `Store.ModelStore.Create` | routes/models.js:14-37 | A blank required field gives 400 naming the first one, and nothing changes. Otherwise one record is appended: the fresh id, the six trimmed fields, the attribution, `now`, and 0 purchases. The store invariant is kept. |
| `Store.ModelStore.Insert` | routes/models.js:36 | `insertOne` appends the record and advances the clock to its creation time. Purchases stay, and the invariant is kept. |
| `Store.CreateKeepsConsistent` | routes/models.js:26-36 | Inserting a record with an id no record has, a later time stamp, well-formed fields and a zero counter keeps the store invariant, even when older purchases already name that id. |
| `Store.ModelStore.Update` | routes/models.js:113-130 | The checks of `LocateOwned` come first, with nothing changed on failure. Otherwise only that record changes. Its id, creator, creation time and counter stay. Each patch key takes its new value, and every other field stays. The answer is the updated record. |
| `Store.ModelStore.Delete` | routes/models.js:140-150 | After the same checks, exactly that record is removed, in place. Purchases are untouched, and the invariant is kept. |
| `Store.RemoveKeepsOrder` | routes/models.js:149 | Removing one record keeps the others unique and in order. |
| `Store.ModelStore.Purchase` | routes/models.js:160-180 | A malformed id gives 400 and changes nothing. Otherwise one purchase by the attributed caller at `now` is appended. Then that record's counter goes up by one and the record is answered, or 404 if there is none. The invariant is kept: every counter equals the number of purchases of its id made since the record was created. |
| `Store.ModelStore.Record` | routes/models.js:170-177 | The purchase is appended and the clock advances to its time. Then the counter of the record with that id, if there is one, rises by one, and no record changes otherwise. The invariant is kept. |
| `Store.Bump` | routes/models.js:177 | `$inc` keeps the number of records. Only a record with that id can change, and only by one more purchase. With no such record nothing changes. |
| `Store.BumpPointwise` | routes/models.js:177 | With unique ids, `$inc` adds one to the counter of the record with that id. It changes nothing else in any record. |
| `Store.PurchaseKeepsConsistent` | routes/models.js:170-177 | Appending a later purchase and incrementing its record's counter keeps every counter equal to its number of purchases since creation, and keeps the rest of the invariant. |
| `Purchases.ByBuyer` | routes/purchases.js:16 | `$match` keeps exactly the caller's purchases (all of them with no email), in order. |
| `Purchases.RowOf` | routes/purchases.js:22-26 | The projection `{ purchasedAt, purchasedBy, model }` drops `modelId`, yet a joined row determines its purchase: the record's id stands for it. |
| `Purchases.Lookup` | routes/purchases.js:17 | `$lookup` finds exactly the records whose `_id` is the purchase's `modelId`. |
| `Purchases.LookupAtMostOne` | routes/purchases.js:17 | With unique ids a lookup finds at most one record, and finds one exactly when the record exists. |
| `Purchases.Unwound` | routes/purchases.js:18 | `$unwind` gives one row per record found, pairing the purchase with it. |
| `Purchases.Joined` | routes/purchases.js:17-18 | Lookup followed by unwind is an inner join. Every (purchase, referenced record) pair is a row, and every row is such a pair. |
| `Purchases.JoinedCount` | routes/purchases.js:17-18 | There is one row for each purchase whose record still exists. |
| `Purchases.JoinedIncreasing` | routes/purchases.js:17-19 | Joining purchases in time order gives rows in time order. |
| `Purchases.Mine` | routes/purchases.js:11-26 | `/purchases/mine` gives exactly the rows `{ purchasedAt, purchasedBy, model }` of the caller's purchases whose record exists (all purchases when there is no email). |
| `Purchases.MineOrderAndCount` | routes/purchases.js:15-20 | Those rows are newest purchase first, one per qualifying purchase. |
| `Purchases.ByModel` | routes/purchases.js:36-43 | A malformed id gives 400, and every well-formed id is answered: exactly the purchases of that record, newest first. |
| `Routes.MyModels` | routes/models.js:83-87 | `/mine` behind the gate gives 401 exactly when the gate refuses, with the gate's own message. Otherwise it lists the records created by the caller's email, newest first. |
| `Routes.MyPurchases` | routes/purchases.js:11-26 | `/purchases/mine` behind the gate gives 401 with the gate's message exactly when refused. Otherwise it gives the inner join of the caller's purchases, which is `Purchases.Mine` for the attached identity. |
| `Routes.MyPurchasesOrderAndCount` | routes/purchases.js:15-20 | In a consistent store an admitted `/purchases/mine` lists newest purchase first, one row per purchase of the caller whose record exists. |
| `Routes.PurchasesOf` | routes/purchases.js:36-43 | By-model behind the gate gives 401 with the gate's message when refused, then 400 for a malformed id. Every other request is answered with every purchase of that record, newest first. |
| `Routes.CreateModel` | routes/models.js:14-37 | 401 with the gate's message exactly when the gate refuses. Past the gate, 400 names the first blank field and nothing changes; otherwise the record with the fresh id, the six trimmed fields, the attached identity's attribution, `now` and no purchases is appended. |
| `Routes.UpdateModel` | routes/models.js:113-130 | 401 with the gate's message exactly when refused. Past the gate, 400, 404 or 403 come in source order with nothing changed. A success changes only the caller-owned target: its system fields stay, patched keys take the body's values, other fields and other records stay. |
| `Routes.DeleteModel` | routes/models.js:140-150 | 401 with the gate's message exactly when refused. Past the gate, 400, 404 or 403 come in source order with nothing changed, and the owner's delete removes exactly that record and answers `true`. |
| `Routes.PurchaseModel` | routes/models.js:160-180 | 401 with the gate's message exactly when refused, and nothing recorded. Past the gate, 400 for a malformed id; otherwise the purchase of that id by the attributed caller at `now` is appended, the record's counter rises by one and the record is answered, or 404 if there is none. |
| `Routes.OwnerIsVerified` | routes/models.js:120 | When enforcing, passing the ownership check means the verified token's email is the record's creator. |
| `Routes.BypassForbidsOwnerRoutes` | routes/models.js:120 | With authentication bypassed, update and delete answer 403 for every existing record. |

## Left out

- The MongoDB connection and the Express application are not modelled. db.js connects, and index.js mounts the routers and sets CORS and JSON parsing. The `ignoreUndefined` option from db.js is modelled: it is why an absent email selects everything.
- The identity provider is not modelled. `verifyIdToken` is a function parameter that yields the decoded identity or nothing. Credential parsing and `initializeApp` are reduced to a "provider ready" flag. The `admin.apps.length` check is not modelled because it only matters when the module is loaded twice.
- `Auth.LoadGate`: credential handling is not modelled. What `credential.cert` and `initializeApp` do with the client email and private key, including failures while the module loads, is reduced to the "provider ready" flag.
- Every 500 path and all logging are left out. They only handle database or driver failures, which are not modelled.
- Concurrency is left out. Each handler runs atomically. The gap between purchase insert, counter increment and lookup is not modelled, and neither is the gap between update and re-read.
- The clock and the id generator are inputs. `now` must be later than every stored time stamp, and a new id must differ from every stored record's id, standing in for `new Date()` and the driver's `ObjectId` generator. Purchases may already name that id, because a purchase of any well-formed id is recorded; such earlier purchases never reach the new record's counter.
- `Text.NameMatches`: the `$regex` with option `i` is modelled as a case-insensitive substring test on ASCII letters. Regex metacharacters in `q` and non-ASCII case folding are not modelled.
- `Catalog.PageNumber`: `page` and `limit` are modelled as parsed integers or absent. A value that `parseInt` turns into `NaN` is not modelled.
- `Domain.ToText`: JSON values are modelled as null, undefined, booleans, integers and strings. Fractional numbers, arrays and objects in a request body are not modelled.
- `Text.Decimal`: JavaScript numbers are doubles, but `Num` holds an exact integer. Integers beyond 2^53, which JSON parsing rounds (in created text fields and in `$set` values alike), and the exponent notation `String(n)` uses from 10^21 on are not modelled; the same holds for huge `page` and `limit` values.
- `Catalog.Matching`: a framework or name field that is not a string matches nothing. The store's comparison rules for other types are not modelled.
- `Store.ModelStore.Update`: an empty `$set` is modelled as a no-op. The store versions this service targets accept it. Dotted keys in the patch, which `$set` would treat as paths, are modelled as plain keys.
- `ObjectIds.ParseId`: only the 24-hex-digit string form is accepted. Older BSON libraries also accepted 12-character strings; that form is not modelled.
- Response status 201 for create and the `{ ok: true }` body of delete are represented by the `Ok` outcome, with `true` for delete. The HTTP layer is not modelled.
- Dates are natural numbers. The record order within equal time stamps does not arise, because the clock strictly increases.
