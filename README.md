# Product catalogue and user accounts — a Dafny model

This project models the back end of a small product-catalogue service built on
Express and MongoDB. It covers:

- the product schema and the product handlers: add, list and filter, bulk upload
  from CSV/XLSX, status toggle, delete, update, category list;
- the user schema and the user handlers: register, log in, verify e-mail, reset
  password, profile update, paginated user list, dashboard statistics, admin
  invitation;
- the generic paginated search helper (`paginateAndSearch`);
- the super-admin seeding at start-up;
- the JWT `authenticate` / `checkPermission` middleware;
- the upload MIME filter and the CSV/XLSX dispatch.

## How the model is built

- **Collections.** A MongoDB collection is a `Tables.Table<T>`. It holds a map
  from identifiers to documents, the natural (insertion) order of the
  identifiers, and the next fresh identifier. `findOne` is "first in natural
  order", `insertMany` appends in order, and `findByIdAndDelete` removes one
  record.
- **Stores.** The handlers that change data are methods of two classes,
  `ProductController.ProductStore` and `UserController.UserStore`. Each owns one
  table field. Every method states its outcome (the HTTP status of each branch)
  and its new table in terms of the old one. It is proved to keep the store's
  invariant. For both stores that is a well-formed table. For `UserStore` it also
  says that every stored user meets the schema's `required` rules. The product
  store does not have that rule, because `findByIdAndUpdate` runs no validators
  and can store a product that breaks the schema (`UpdateSkipsValidation`).
- **Read-only handlers** (`getProducts`, `getUsers`, `getStats`,
  `paginateAndSearch`, `loginUser`) are functions over a snapshot of the
  collection.
- **JavaScript and MongoDB semantics** are written out explicitly:
  - truthiness of request fields;
  - `Number(...)`, which can give NaN;
  - `parseInt(x) || d`, with the leading white space, sign and `0x` prefix that
    `parseInt` reads;
  - `toLowerCase` on ASCII;
  - `split`;
  - the regex match with the `i` option, modelled as a case-insensitive literal
    infix test;
  - comparison with NaN, which is always false;
  - sort order across value types;
  - `$skip` / `$limit`;
  - `Math.ceil(total / limit)`.
- **Outside services are parameters.** bcrypt, JWT signing and checking, the
  e-mail sender, Cloudinary uploads, the CSV and spreadsheet parsers,
  `Date.now()` and `Math.random()` come in as parameters, functions or
  outcomes.

## Model

| member | source | states |
|---|---|---|
| `Text.JoinSplit` | src/middlewares/auth.ts:19 | joining the pieces of `split(c)` with `c` gives back the original string |
| `Text.SplitJoin` | src/utils/parseFile.ts:6 | splitting a join of separator-free pieces gives back exactly those pieces |
| `Text.SplitPiecesAreFree` | src/utils/parseFile.ts:6 | no piece of a split contains the separator |
| `Text.LastPiece` | src/utils/parseFile.ts:6 | the last piece of `split('.')` is the text after the last dot |
| `Text.LowerIdempotent` | src/controllers/productController.ts:145-150 | lower-casing twice is lower-casing once |
| `Text.ContainsIgnoresPatternCase` | src/controllers/productController.ts:145-150 | a case-insensitive match does not depend on the case of the pattern |
| `JsNumbers.ParseIntOr` | src/controllers/productController.ts:158-159 | `parseInt(s) \|\| d` is `d` when the parse is NaN or 0, and otherwise the non-zero parsed value |
| `JsNumbers.NumberOfDecimalString` | src/controllers/userController.ts:233-234 | `Number(n.toString())` is `n` for every non-negative integer |
| `JsNumbers.ParseIntOfDecimalString` | src/controllers/userController.ts:394-395 | `parseInt(n.toString())` is `n` |
| `JsNumbers.ParseIntExamples` | src/controllers/productController.ts:158-159 | parseInt reads a signed digit prefix: "12abc" is 12, "abc" is NaN, "-3" is -3 |
| `JsNumbers.ParseIntOfDigits` | src/controllers/productController.ts:158-159 | a non-empty decimal digit string is read as its value |
| `JsNumbers.ParseIntSkipsSpace` | src/controllers/productController.ts:158-159 | a leading white-space character does not change what parseInt reads |
| `JsNumbers.ParseIntHex` | src/controllers/productController.ts:158-159 | "0x" followed by hexadecimal digits is read in base 16 |
| `JsNumbers.ParseIntNegativeHex` | src/controllers/userController.ts:394-395 | "-0x" followed by hexadecimal digits is the negated base-16 value |
| `JsNumbers.ParseIntHexExamples` | src/controllers/productController.ts:158-159 | "0x10" is 16, so `?page=0x10` asks for page 16; "0x" and "0xg" are NaN |
| `JsNumbers.ParseIntSpaceExample` | src/controllers/userController.ts:394-395 | " 42" is 42 |
| `JsNumbers.DecimalString` | src/controllers/userController.ts:234 | `toString` of a non-negative integer is a non-empty digit string |
| `Sorting.KeyLeTotal` | src/controllers/productController.ts:193 | the cross-type sort order compares every pair of values |
| `Sorting.KeyLeTransitive` | src/controllers/productController.ts:193 | the cross-type sort order is transitive |
| `Sorting.SortByKey` | src/controllers/productController.ts:193 | `$sort` on one key gives a sorted permutation of its input |
| `Sorting.Insert` | src/controllers/productController.ts:193 | inserting into a sorted sequence keeps it sorted and adds exactly one element |
| `Pagination.CeilDiv` | src/controllers/productController.ts:206 | `Math.ceil(total / limit)`: the pages hold every match, the last page is non-empty, and there are no pages exactly when there are no matches |
| `Pagination.Skip` | src/controllers/productController.ts:160 | `(page - 1) * limit`, non-negative for positive paging |
| `Pagination.Window` | src/controllers/productController.ts:194-195 | `$skip` then `$limit`: at most `limit` elements, the exact length, consecutive elements of the input from `skip` on |
| `Pagination.WindowElementsFromSource` | src/controllers/productController.ts:194-195 | a page holds nothing that was not in the input |
| `Pagination.PageNonEmptyIffWithinCount` | src/controllers/productController.ts:194-206 | a page is non-empty exactly when its number is at most the page count |
| `Pagination.LastPageSize` | src/controllers/productController.ts:194-206 | the last page holds what the full pages leave over |
| `Pagination.TwentyFiveInPagesOfTen` | src/utils/paginateAndSearch.ts:39-51 | 25 matches in pages of 10: 3 pages, 5 on the third, none on the fourth |
| `Pagination.PageOfSortedMatches` | src/controllers/productController.ts:163-195 | a page of the sorted matches holds only documents of the collection that match, in sort order |
| `Tables.CountWhere` | src/controllers/productController.ts:199-205 | `$count` of the matches is at most the collection's size |
| `Tables.CountWhereSplit` | src/controllers/userController.ts:429-446 | counting distributes over concatenation |
| `Tables.Where` | src/controllers/productController.ts:164 | `$match` keeps exactly the matching documents, in order: as many as the count, all matching, none invented |
| `Tables.FirstIndexWhere` | src/controllers/userController.ts:46 | the first position that satisfies a predicate, or none exactly when none does |
| `Tables.Without` | src/controllers/productController.ts:301 | removing an identifier keeps every other one |
| `Tables.Table.Find` | src/controllers/productController.ts:284 | `findById` finds a record exactly when the identifier is stored |
| `Tables.EntriesIndex` | src/controllers/userController.ts:448 | a well-formed table's entries are its records in natural order, one per identifier |
| `Tables.InsertEntries` | src/controllers/productController.ts:49 | `save()` of a new document appends one record under a fresh identifier and keeps the table well formed |
| `Tables.InsertAllEntries` | src/controllers/productController.ts:266 | `insertMany` appends one record per document, in order, under consecutive fresh identifiers |
| `Tables.PutEntries` | src/controllers/productController.ts:292-293 | saving an existing document changes that record only |
| `Tables.DeleteEntries` | src/controllers/productController.ts:301 | `findByIdAndDelete` removes that record only and keeps the table well formed |
| `Tables.FirstWhereFound` | src/controllers/userController.ts:46 | `findOne` finds a record exactly when a stored value satisfies the filter; the record is stored and satisfies it, and no entry before it in natural order does |
| `Tables.FirstWhereIsFirst` | src/controllers/userController.ts:46 | the record `findOne` returns sits at a position in natural order before which no entry satisfies the filter |
| `ProductModel.ParseStatus` | src/models/productModel.ts:38-43 | only "active" and "inactive" pass the enum check |
| `ProductModel.ParseStatusName` | src/models/productModel.ts:38-43 | status names and statuses correspond one to one |
| `ProductModel.FormNumber` | src/models/productModel.ts:19-30 | a missing or empty form field gives no number to cast |
| `ProductModel.FromJsNumber` | src/controllers/productController.ts:258-260 | a number already produced by `Number(...)` can be stored only when it is not NaN |
| `ProductModel.Construct` | src/models/productModel.ts:14-45 | a document is accepted exactly when name, description and category are non-empty, price and stock are castable numbers, and the status is absent or in the enum; the stored status defaults to active, timestamps are `now` |
| `ProductModel.ConstructDefaults` | src/models/productModel.ts:38-45 | without a status the product is active, there is no default image URL, and negative price and stock are accepted |
| `ProductModel.ConstructRejects` | src/models/productModel.ts:14-43 | a status outside the enum, a missing name, a missing stock or an uncastable price is rejected |
| `ProductController.AddNeedsStockToo` | src/controllers/productController.ts:13-49 | a form that passes the handler's guard but has no stock is still rejected by the schema |
| `ProductController.AddedWithoutImage` | src/controllers/productController.ts:18-47 | a product added without a file has the empty image URL |
| `ProductController.CellNumber` | src/controllers/productController.ts:258-260 | the definition of the row's `Number(...)` conversion: a missing CSV column gives NaN, a present cell gives `Number(cell)`; its consequences are stated by `RowDraftDefaults` |
| `ProductController.RowDraft` | src/controllers/productController.ts:256-264 | the definition of the `.map` callback, field by field, with `""` for a falsy image URL and `"inactive"` for a falsy status; the properties are in `RowDraftDefaults` and `BadRowRejectsBatch` |
| `ProductController.RowDraftDefaults` | src/controllers/productController.ts:256-264 | a bulk row without a status is stored inactive, an empty price cell is 0, a missing price or stock column rejects the row, and a row without an image URL stores "" |
| `ProductController.ConstructAll` | src/controllers/productController.ts:266 | a batch is accepted exactly when every document is, and then holds exactly those documents in order |
| `ProductController.RowDrafts` | src/controllers/productController.ts:256-264 | the definition of `rows.map(...)`: the callback applied to every row, in order; `BadRowRejectsBatch` states what follows |
| `ProductController.BadRowRejectsBatch` | src/controllers/productController.ts:266-277 | one invalid row rejects the whole file |
| `ProductController.NewRecords` | src/controllers/productController.ts:266-271 | the definition of the records `insertMany` returns: consecutive identifiers, one per document; `Tables.InsertAllEntries` proves the table holds them |
| `ProductController.Flip` | src/controllers/productController.ts:292 | the toggle always changes the status |
| `ProductController.ToggleStatus` | src/controllers/productController.ts:289-293 | the toggle is refused exactly for an inactive product without a truthy image URL; otherwise only the status (flipped) and the modification time change |
| `ProductController.ToggleTwice` | src/controllers/productController.ts:289-293 | two permitted toggles restore the product apart from its modification time |
| `ProductController.ActiveWithoutImageIsOneWay` | src/controllers/productController.ts:289-292 | an active product without an image can be deactivated but then not reactivated |
| `ProductController.ApplyPatch` | src/controllers/productController.ts:313-333 | `findByIdAndUpdate` with the body and the image URL fails exactly on an uncastable number; it overwrites the given fields, always sets the image URL, keeps the rest |
| `ProductController.UpdateWithoutFileClearsImage` | src/controllers/productController.ts:316-333 | an update without a file wipes the image, and an inactive product then cannot be activated |
| `ProductController.UpdateSkipsValidation` | src/controllers/productController.ts:333 | updates skip validation: an empty name is stored and the product no longer meets the schema |
| `ProductController.EmptyPatchChangesNothingElse` | src/controllers/productController.ts:333 | an empty body only resets the image URL and the modification time |
| `ProductController.Categories` | src/controllers/productController.ts:59-62 | `distinct('category')` holds every stored product's category and only those |
| `ProductController.CategoryCount` | src/controllers/productController.ts:59-62 | `distinct('category')` has no more values than there are products |
| `ProductController.CategoriesAfterChange` | src/controllers/productController.ts:59-62 | adding a product adds exactly its category to the distinct list; deleting one never adds a category |
| `ProductController.ProductStore.AddProduct` | src/controllers/productController.ts:9-55 | 400 exactly when a required field is falsy; 201 exactly when the upload succeeded and the schema accepts the document, which is then appended; otherwise 500 and nothing stored |
| `ProductController.ProductStore.BulkUpload` | src/controllers/productController.ts:238-278 | 400 without a file or for an empty parse; 500 when parsing or any row fails; 200 exactly when every row is valid, after which all rows are appended in order |
| `ProductController.ProductStore.UpdateStatus` | src/controllers/productController.ts:282-295 | 404 for an unknown identifier; 400 when activating without an image; no reply when the save fails validation; otherwise the toggled product is saved |
| `ProductController.ProductStore.DeleteProduct` | src/controllers/productController.ts:298-310 | 200 exactly when the identifier was stored, and then only that record is removed; 404 otherwise |
| `ProductController.ProductStore.UpdateProduct` | src/controllers/productController.ts:313-344 | no reply when the upload fails; then 500 exactly for an uncastable number, whether or not the identifier is stored, because the update is cast before the query; then 404 exactly for an unknown identifier; otherwise the patched product replaces the record |
| `ProductListing.Classify` | src/controllers/productController.ts:167-190 | the stock label: OutOfStock exactly at 0, Low for other stock up to 10, Medium for 11 to 20, High above 20 |
| `ProductListing.AnnotateAll` | src/controllers/productController.ts:165-191 | the definition of the `$addFields` stage applied to every row; `AnnotatedOrder` and `AnnotatedRows` carry its properties |
| `ProductListing.AnnotatedOrder` | src/controllers/productController.ts:165-193 | annotation keeps the sort order |
| `ProductListing.SortedMatches` | src/controllers/productController.ts:163-193 | the sorted matches are as many as the `$count` of matches |
| `ProductListing.PageRecords` | src/controllers/productController.ts:160-195 | the page is the slice of the sorted matches from position `(page - 1) * limit`: its exact length, and entry `i` is sorted match `skip + i`; at most `limit` stored products, all matching the criteria, in sort order |
| `ProductListing.AnnotatedRows` | src/controllers/productController.ts:165-193 | the annotated rows carry the page's records, one for one, in sort order |
| `ProductListing.ListProducts` | src/controllers/productController.ts:73-218 | total is the number of matches; totalPages is its ceiling over the limit; currentPage is the parsed page; the rows are exactly the `$skip`/`$limit` slice of the sorted matches, each with its label and `isOutOfStock` exactly at stock 0, in sort order |
| `ProductListing.CriteriaFromQuery` | src/controllers/productController.ts:93-150 | the `$match` stage: role "user" forces active, other roles use a truthy status; a price range exactly for a given bound; a category list unless the one category is empty; a search exactly for a truthy text |
| `ProductListing.StockBounds` | src/controllers/productController.ts:113-136 | stock is unfiltered exactly without a range and without a "true" flag; out-of-stock sets `$eq: 0`; high sets `$gt: 20`; medium sets `$lte: 20` and a `$gt` of 10 unless high follows; low alone sets `$lte: 10`; `$gte` comes only from `stockMin` |
| `ProductListing.Compare` | src/controllers/productController.ts:106-117 | an absent bound holds, a NaN bound never holds, a number bound holds by its comparison |
| `ProductListing.UserRoleForcesActive` | src/controllers/productController.ts:96-97 | a caller with role "user" only sees active products, whatever status was asked for |
| `ProductListing.OtherRolesUseRequestedStatus` | src/controllers/productController.ts:98-103 | other callers get a status filter exactly when a truthy status was given, and then that one |
| `ProductListing.UserListingIsActiveOnly` | src/controllers/productController.ts:96-212 | every row listed for a "user" caller is active |
| `ProductListing.PriceBoundsOnlyWhenGiven` | src/controllers/productController.ts:106-110 | a price range exists exactly when a bound is given, with `$gte`/`$lte` set from exactly the given bounds |
| `ProductListing.StockUnconstrainedWithoutInput` | src/controllers/productController.ts:113-136 | without a stock range or a flag equal to "true" stock is not filtered |
| `ProductListing.LowStockOverwritesMax` | src/controllers/productController.ts:115-121 | `lowStock=true` replaces an explicit `stockMax=5` with `$lte: 10`, so stock 8 matches |
| `ProductListing.LowThenMediumStock` | src/controllers/productController.ts:120-126 | low then medium leaves `$gt: 10, $lte: 20` and keeps an explicit minimum |
| `ProductListing.FlagsSelectBuckets` | src/controllers/productController.ts:120-136 | each stock flag on its own selects its stock bucket |
| `ProductListing.OneCategoryIsAList` | src/controllers/productController.ts:139-142 | one category and a one-element list of it filter the same way |
| `ProductListing.SearchIgnoresCase` | src/controllers/productController.ts:145-150 | the search matches a name or category containing the text, ignoring case |
| `ProductListing.SortFieldAllowList` | src/controllers/productController.ts:153-154 | the sort field is always allow-listed; an allowed `sortBy` is kept, anything else becomes createdAt |
| `ProductListing.PagingDefaults` | src/controllers/productController.ts:158-159 | an absent, zero or non-numeric page or limit becomes 1 or 10 |
| `ProductListing.TotalIgnoresPaging` | src/controllers/productController.ts:199-205 | the total does not depend on sorting or paging |
| `ProductListing.PagePastLastIsEmpty` | src/controllers/productController.ts:194-211 | a page is empty exactly when its number is past the last page |
| `Multer.FileFilter` | src/middlewares/multer.ts:10-19 | a file is accepted exactly when its MIME type is one of the six listed; otherwise the error is "Invalid file type" |
| `Multer.FilterIgnoresNameAndContents` | src/middlewares/multer.ts:14 | the decision depends on the MIME type only |
| `Multer.FilterIsExact` | src/middlewares/multer.ts:11-14 | the test is exact string membership: other case, parameters, prefixes and the old Excel type are rejected |
| `ParseFile.ExtensionAfterLastDot` | src/utils/parseFile.ts:6 | the extension is the lower-cased text after the last dot |
| `ParseFile.ExtensionWithoutDot` | src/utils/parseFile.ts:6 | a name without a dot is its own extension |
| `ParseFile.ParseFileBuffer` | src/utils/parseFile.ts:5-20 | an unsupported extension throws; csv goes to the CSV parser; xlsx and xls give the first sheet's rows, or none without a sheet |
| `ParseFile.DispatchUpperCaseCsv` | src/utils/parseFile.ts:6-8 | the extension test ignores case |
| `ParseFile.DispatchLastExtension` | src/utils/parseFile.ts:6-13 | only the last extension counts |
| `ParseFile.DispatchIgnoresInnerExtension` | src/utils/parseFile.ts:6-19 | a name whose last extension is not csv, xlsx or xls is refused, whatever it contains before |
| `ParseFile.DispatchBareName` | src/utils/parseFile.ts:6-8 | a name without a dot is its own extension, so "csv" is read as CSV |
| `UserModel.ParseRole` | src/models/userModel.ts:40-44 | only "user" and "admin" are roles |
| `UserModel.NewUser` | src/models/userModel.ts:16-50 | a new user keeps the given name, e-mail and password, has no slug or picture, and both timestamps are `now` |
| `UserModel.NewUserDefaults` | src/models/userModel.ts:33-48 | without explicit values a new user is verified, has role "user" and is not a super-admin |
| `UserModel.Hidden` | src/models/userModel.ts:25-28 | default reads leave out the password and nothing else |
| `UserController.FindByEmailFound` | src/controllers/userController.ts:46 | `findOne({ email })` finds a user exactly when the address is taken, and returns a stored record with that address |
| `UserController.FindBySlugFound` | src/controllers/userController.ts:310 | `findOne({ slug })` returns a stored user with that slug |
| `UserController.FindsNewlyInserted` | src/utils/initiate.ts:16-29 | after inserting a user under a free address, looking it up finds exactly that record |
| `UserController.Login` | src/controllers/userController.ts:86-139 | 400 for falsy fields, a bad address format or an unknown address; 403 for an account without a password; an unverified account gets the verification answer; 403 for a wrong password; 200 exactly for a verified account with a matching password |
| `UserController.UnverifiedIgnoresPassword` | src/controllers/userController.ts:104-111 | for an unverified account the answer does not depend on the password check |
| `UserController.GoogleAccountsCannotUsePassword` | src/controllers/userController.ts:104-119 | an account without a password never logs in with one |
| `UserController.IssueResetSlug` | src/controllers/userController.ts:232-235 | a reset token stores the current time as the slug and changes nothing else |
| `UserController.MarkVerified` | src/controllers/userController.ts:243-244 | verification sets the flag and changes nothing else |
| `UserController.Expired` | src/controllers/userController.ts:316-317 | an expired slug is a number earlier than now |
| `UserController.IssuedSlugExpiry` | src/controllers/userController.ts:233-320 | a slug issued at time t expires exactly when more than 360000 ms have passed |
| `UserController.NonNumericSlugNeverExpires` | src/controllers/userController.ts:317 | a slug that is not a number never expires, because a comparison with NaN is false |
| `UserController.WithNewPassword` | src/controllers/userController.ts:323-327 | the reset stores the new hash, removes the slug and changes nothing else |
| `UserController.ApplyProfileEdit` | src/controllers/userController.ts:381-385 | picture, name and e-mail are overwritten only by non-empty values, nothing else changes, and a valid user stays valid |
| `UserController.InvitedUser` | src/controllers/userController.ts:482 | an invitation creates an unverified admin, not a super-admin, with the hashed temporary password |
| `UserController.InvitedUserMustVerifyFirst` | src/controllers/userController.ts:104-482 | an invited admin gets the verification answer at first login whatever the password |
| `UserController.UserStore.Register` | src/controllers/userController.ts:40-84 | 400 for falsy fields, then for a taken address, then for a bad format; otherwise one verified ordinary user with the hash is appended; unique addresses stay unique |
| `UserController.UserStore.VerifyEmail` | src/controllers/userController.ts:216-260 | 400 without a token or for a rejected one; 404 for an unknown user; a reset token stamps the slug and redirects; a verified user gets 400; otherwise the user is marked verified |
| `UserController.UserStore.ResetPassword` | src/controllers/userController.ts:302-335 | 400 for falsy fields; 404 for an unknown slug; 410 once expired; otherwise the new hash is stored and the slug removed |
| `UserController.UserStore.UpdateUser` | src/controllers/userController.ts:353-390 | 400 for an unknown user; no reply when the upload fails; otherwise the profile edit is saved |
| `UserController.UserStore.Invite` | src/controllers/userController.ts:467-491 | 400 for falsy fields or a taken address; otherwise one unverified admin is appended; unique addresses stay unique |
| `UserController.UserOptions` | src/controllers/userController.ts:394-414 | the options: parsed page and limit with defaults 1 and 10, the search or "", fields name and email, the sort field or createdAt, ascending exactly for "asc", a role filter exactly when a role is given |
| `UserController.HideAll` | src/models/userModel.ts:25-28 | the definition of the listing's password-free projection, row by row; `HiddenKeepsFields` and `HiddenKeepsOrder` carry its properties |
| `UserController.ListUsers` | src/controllers/userController.ts:392-424 | total counts the matching users, pages and page follow the paging; the page is, entry for entry, the paginated search's page with each password left out, so its exact slice and length carry over; each entry is a stored matching user without its password; the page is in `sortField`/`sortOrder` order for every field but the password |
| `UserController.HiddenListing` | src/controllers/userController.ts:407-419 | the paginated search's page, passwords left out, holds matching stored users in the requested order |
| `UserController.HiddenPage` | src/controllers/userController.ts:407-419 | hiding the passwords of a page of matches keeps each entry traceable to a matching stored user |
| `UserController.HiddenKeepsFields` | src/models/userModel.ts:25-28 | leaving out the password changes no other field |
| `UserController.HiddenKeepsOrder` | src/controllers/userController.ts:397-413 | the database sorts before the password is dropped, so the order survives on every other field |
| `UserController.RoleFilterOnlyWhenGiven` | src/controllers/userController.ts:403-405 | without a role every user passes the filter, with one only users of that role |
| `UserController.UserSearchCoversNameAndEmail` | src/controllers/userController.ts:396-411 | the search finds users whose name or e-mail contains the text, ignoring case |
| `UserController.UserListingDefaults` | src/controllers/userController.ts:394-398 | an empty query gives the first page of ten, newest first, with no filter |
| `UserController.StatusPartition` | src/controllers/userController.ts:434-435 | active and inactive products partition the collection |
| `UserController.GetStats` | src/controllers/userController.ts:426-465 | the counts: every product, active plus inactive equals all products, out of stock is stock at most 0, categories is the number of distinct categories, users is the number of users |
| `UserController.CategoryCountBound` | src/controllers/userController.ts:436-446 | there are never more categories than products, and none exactly when there are no products |
| `Initiate.FindSuperAdminFound` | src/utils/initiate.ts:16 | the lookup finds a super-admin with the address exactly when one exists |
| `Initiate.SuperAdmin` | src/utils/initiate.ts:21-28 | the seeded account is a verified admin and super-admin with the hashed password |
| `Initiate.InitiateSuperAdmin` | src/utils/initiate.ts:6-30 | missing credentials are an error; an existing super-admin with the address leaves the store alone; otherwise one super-admin is appended |
| `Initiate.Seed` | src/utils/initiate.ts:6-30 | without credentials nothing changes; at most one account is added; every existing user is kept |
| `Initiate.SeedInsertsOne` | src/utils/initiate.ts:16-29 | seeding an empty slot creates exactly one super-admin with the address |
| `Initiate.SeedTwiceLeavesOne` | src/utils/initiate.ts:16-29 | a second start-up adds nothing: there is still exactly one |
| `Initiate.SeedIdempotent` | src/utils/initiate.ts:6-30 | seeding twice is seeding once |
| `Initiate.OrdinaryUserDoesNotBlock` | src/utils/initiate.ts:16 | an ordinary user with the same address does not stop the seed, which then leaves two users with one address |
| `PaginateAndSearch.SearchQuery` | src/utils/paginateAndSearch.ts:30-37 | the caller's equalities are copied; with a search and fields the `$or` holds one case-insensitive clause per field, otherwise the filter is unchanged |
| `PaginateAndSearch.EffectiveQuery` | src/utils/paginateAndSearch.ts:21-37 | the query keeps the filter's equalities and has one `$or` clause per field when there is a search |
| `PaginateAndSearch.Satisfies` | src/utils/paginateAndSearch.ts:43-44 | an empty `$or` matches nothing and the empty query matches everything |
| `PaginateAndSearch.Paginate` | src/utils/paginateAndSearch.ts:19-55 | total counts the matches, pages is its ceiling over the limit, page is the requested page; the data has the exact `$skip`/`$limit` length, holds stored matching documents and is in sort order |
| `PaginateAndSearch.SatisfiesOneField` | src/utils/paginateAndSearch.ts:30-43 | a filter with one equality and no `$or` holds exactly when that field has that value |
| `PaginateAndSearch.SatisfiesNoField` | src/utils/paginateAndSearch.ts:26-43 | the default empty filter holds for every document |
| `PaginateAndSearch.Defaults` | src/utils/paginateAndSearch.ts:21-28 | omitted options give page 1, limit 10, no search, an empty filter and newest first |
| `PaginateAndSearch.SearchIsAnyField` | src/utils/paginateAndSearch.ts:33-36 | with a search and fields, a document matches exactly when it meets the equalities and some field contains the text, ignoring case |
| `PaginateAndSearch.NoSearchKeepsFilter` | src/utils/paginateAndSearch.ts:30-37 | without a search or without fields the query is the caller's filter |
| `PaginateAndSearch.TotalIgnoresPaging` | src/utils/paginateAndSearch.ts:42-45 | the count does not depend on the page, the limit or the sort |
| `Auth.BearerToken` | src/middlewares/auth.ts:16-19 | a token exists exactly when the header starts with "Bearer ", and it is the second space-separated piece |
| `Auth.TokenIsFirstWord` | src/middlewares/auth.ts:19 | the token is the first word after the scheme, whatever follows |
| `Auth.BearerExamples` | src/middlewares/auth.ts:16-19 | "Bearer a b" gives "a", the scheme is case-sensitive, "Bearer " gives "" |
| `Auth.Authenticate` | src/middlewares/auth.ts:9-35 | 401 without a bearer header; 403 for a token that does not verify; otherwise the request carries the token's id and role |
| `Auth.CheckPermission` | src/middlewares/auth.ts:37-44 | a request passes exactly when its role is truthy and in the allowed list |
| `Auth.GuardRejects` | src/middlewares/auth.ts:39-40 | an empty list or a missing role is always refused |
| `Auth.AdminRoute` | src/routes/productRoutes.ts:9-15 | an admin route admits a request exactly when its token verifies with role "admin" |

## Left out

- The response cache is left out. No modelled handler calls it.
- `getSingleProduct` is left out. It is a plain lookup by identifier, and `Tables.Table.Find` states what it does.
- `getCategories` has a 500 branch for a database error. Database errors are not modelled anywhere.
- `forgotPassword` is left out because it only signs a token and sends mail. What its token leads to is modelled by `VerifyEmail`'s reset path.
- `userProfile` is left out. It is a lookup with no contract beyond `Tables.Table.Find`.
- The Google OAuth redirect and callback are left out. They are a protocol exchange with an outside provider.
- Outside calls are parameters or outcomes rather than modelled code: mail sending, bcrypt, JWT signing and verification, Cloudinary uploads, the CSV and spreadsheet parsers, `Date.now()` and `Math.random()`.
- `Register` does not model the mail sent after answering 201, because it is fire-and-forget.
- Each read-only handler is modelled over one snapshot of the collections, and concurrency is not modelled. So the two reads inside each `Promise.all` see the same data. These are the listing's two aggregates and the paginated search's `find` and `countDocuments`. The statistics' facet and their user count are two awaits, one after the other, and the model also reads them from one snapshot. A write between the two awaits is not modelled.
- `Number(...)` is modelled on integers only. Floating point, whitespace, hexadecimal and exponent notation are not modelled. `parseInt` is modelled with its white-space skipping, sign and `0x` prefix, on integers. Where `Number(...)` feeds a decision, the model then answers differently from the program:
- `ProductModel.FormNumber`: a price or stock such as "9.99" or " 12" casts to NaN in the model, so `AddProduct` answers 500 where the program stores the product and answers 201.
- `ProductController.CellNumber`: a bulk cell such as "9.99" becomes NaN, so the model rejects the whole file (`BadRowRejectsBatch`) where the program inserts every row.
- `ProductListing.RangeBounds`: a bound such as `priceMin=9.5` becomes NaN and matches nothing in the model, where the program keeps the products priced 9.5 or more.
- `PaginateAndSearch.ClauseHolds`: the search text is matched as a literal, case-insensitive infix, but MongoDB reads it as a regular expression. So "a.c" matches "abc" in the program and not in the model. The same holds for the product search in `ProductListing.Matches`.
- `ProductListing.Matches`: a search text that is not a valid regular expression, such as "(", makes the program's query fail and answer 500. The model instead searches for it literally.
- `ListProducts`, `ListUsers` and `Paginate` require a positive page and limit. A negative parse is not modelled. The code passes it on to the database. The listing's aggregation stages reject a negative `$skip` or `$limit`. The paginated search rejects a negative skip, which comes from a negative page. On page 1 with a negative limit it gets skip 0, and the driver reads the negative limit as a single batch of up to that many documents.
- `SortByKey` sorts by one key. A stable insertion sort stands in for the database sort, whose order among equal keys is unspecified.
- `ProductController.UpdateProduct` takes a typed patch. It cannot express a status outside the enum (the handler would store that unchecked), an empty numeric field (Mongoose stores null) or body fields beyond the schema.
- `UserController.UserStore.UpdateUser` always refreshes `updatedAt`. Mongoose leaves it alone when nothing changed.
- `ParseFile.ParseFileBuffer` dispatches `.xls` to the spreadsheet reader. The upload filter only admits the xlsx and csv types among spreadsheets, so such a file only arrives under an allowed MIME type.
- `PaginateAndSearch.Satisfies` treats an empty `$or` in the caller's filter as matching nothing. MongoDB rejects it with an error.
- Three things the code does that a reader may not expect:
  - The derived stock flags overwrite each other's keys in the order low, medium, high, out. They do not intersect.
  - A bound that is not a number becomes NaN and matches nothing. It is not treated as absent.
  - Bulk upload has no rule that supersedes existing products: every row is inserted.
- Bulk rows default to `inactive`, while the schema defaults to `active`. Both defaults are modelled where each applies.
