# Ordura POS — a Dafny model of its core

Ordura is a point-of-sale system: a Fastify/Prisma backend with accounts and a
product catalogue, and a React frontend with a till screen, a product dialog
and a sign-up page. This project models, in Dafny, the parts of it that decide
behaviour, and proves what they promise.

- **Reply envelopes** (`Envelopes`, `ResponseReaders`). The backend builds
  every answer as `{ status, message, data?, errors?, timestamp }`
  with a status code, and the frontend reads it back. Proved: every builder
  produces a coherent envelope (field errors exactly on a validation error,
  data only on a success), and the frontend readers recover what the
  builders put in.
- **Identifiers** (`Utils`, `Text`). `generateId` pads a number to six digits
  behind a prefix. `generateSKU` builds `PREFIX-YYYYMMDD-RANDOM` and retries
  while the SKU is taken. Proved: the padding round-trips through `parseInt`;
  string order agrees with numeric order below a million; the SKU splits back
  into its three parts; the retry returns the first free candidate.
- **Accounts and sessions** (`Crypto`, `AuthDb`, `AuthRoutes`, `AuthLegacy`).
  The store is a class holding users and sessions. `AuthRoutes` covers the
  split route files: register, login, refresh, logout and me, all
  cookie-based. `AuthLegacy` covers the older body-based `routes/auth.ts`,
  which is the one the server mounts and which answers with its own
  `{ success, data?, error? }` shape. bcrypt and JWT are idealised:
  - a password digest matches exactly its own password;
  - a token verifies exactly when it carries the signing key's signature and
    has not reached its `exp`.

  Proved:
  - the store stays consistent (unique logins; sessions owned by users and
    keyed by their token);
  - with the default lifetimes (a seven-day refresh token and a seven-day
    session), a session's own expiry check never decides, because the
    refresh token stops verifying at the same instant;
  - signing out is idempotent and revokes refresh;
  - two sign-ins of the same account in the same second collide on the
    session key, so the second one answers 500.
- **Catalogue** (`Catalog`, `ProductCreate`, `ProductUpdate`, `ProductDelete`,
  `ProductGet`, `ProductList`). The products table is a class. Proved:
  - the next id (`P` plus the last id's number plus one) is fresh while the
    table holds well-formed ids below `P999999`;
  - after `P999999` the id `P1000000` sorts below it, so every later create
    computes the same id again;
  - update merges only the given fields, idempotently, and two updates
    compose into one;
  - the listing is exactly the selected products, newest first, without
    repeats;
  - its `total` is the number of matching products;
  - `totalPages` is the ceiling of total over limit;
  - a page is the slice Prisma's `skip`/`take` select, including the
    count-from-the-end reading of a negative `take`.
- **Till screen** (`Pos`). A class over the cart. Adding, changing a quantity
  and removing are specified by functions on the cart; their exact effect on
  the cart and on the subtotal is proved, as is the invariant that ids stay
  unique and quantities positive.
- **Product dialog** (`ProductSchema`, `ProductForm`). The zod schema yields
  its issue list in key order. Proved: the list is empty exactly when the
  field rules hold; the dialog's error map keeps the last message per field;
  because the dialog's record has no `sku` field, Save never closes the
  dialog.
- **Sign-up page and client state** (`RegisterPage`, `AuthClientStore`,
  `QueryKeys`). The submit handler checks the password pair, then sends the
  request; the answer or exception is a parameter. The auth store holds the
  signed-in user. The react-query keys form a prefix tree, and each mutation
  invalidates exactly the cached queries it should.

Time is an integer number of seconds held by each store (`now`). Random draws,
ISO timestamps, new user ids and password salts are parameters.

## Model

| member | source | states |
|---|---|---|
| Utils.GenerateIdShape | apps/backend/src/lib/utils.ts:37-39 | the id is the prefix followed by the number's decimal digits left-padded with '0' to six; longer numbers are never cut, and the part after the prefix is all digits |
| Utils.GenerateIdRoundTrip | apps/backend/src/lib/utils.ts:37-39 | `parseInt` of everything after a one-character prefix gives back the number |
| Utils.SixDigits | apps/backend/src/lib/utils.ts:37-39 | below one million the padded part has exactly six digits whose value is the number |
| Utils.GenerateIdOrder | apps/backend/src/lib/utils.ts:37-39 | below one million, one id sorts before another exactly when its number is smaller |
| Utils.CategoryPrefix | apps/backend/src/lib/utils.ts:9-12 | the prefix has at most three characters, all upper-case letters |
| Utils.CategoryPrefixOfLetters | apps/backend/src/lib/utils.ts:9-12 | a category starting with three ASCII letters gets those three, upper-cased |
| Utils.CategoryPrefixOfDigits | apps/backend/src/lib/utils.ts:9-12 | a category of digits only gets an empty prefix |
| Utils.DateStampOfIso | apps/backend/src/lib/utils.ts:14 | the date stamp of an ISO timestamp is its year, month and day without dashes: eight digits |
| Utils.SkuSplits | apps/backend/src/lib/utils.ts:14-18 | a SKU splits on '-' into exactly its prefix, date stamp and random part |
| Utils.GenerateSku | apps/backend/src/lib/utils.ts:8-31 | the SKU returned is the first candidate not already in use, so it never equals an existing SKU, and every earlier candidate was taken |
| Envelopes.BuildersCoherent | apps/backend/src/lib/response.ts:16-117 | whatever their arguments, every builder produces an envelope that carries field errors exactly when its status is a validation error, and data only when its status is success |
| Envelopes.SendErrorWithErrors | apps/backend/src/lib/response.ts:33-61 | an error with code 422 and field errors is the same reply as a validation error with that message |
| ResponseReaders.GetErrorMessage | apps/frontend/src/lib/response.ts:28-30 | the message shown is never empty: it is the reply's own message when that is non-empty, and "An error occurred" otherwise |
| ResponseReaders.CoherentReads | apps/frontend/src/lib/response.ts:14-46 | on a coherent envelope, the data reader gives the fallback unless the reply is a success, and the field-error reader gives an empty record unless the reply is a validation error, when it gives the reply's own errors |
| ResponseReaders.NeverBoth | apps/frontend/src/lib/response.ts:14-23 | no reply is both a success and a validation error |
| ResponseReaders.ReadSuccess | apps/frontend/src/lib/response.ts:14-46 | a success built by the backend reads back as success and not as a validation error, with its data and no field errors |
| ResponseReaders.ReadError | apps/frontend/src/lib/response.ts:14-46 | an error built by the backend never reads as success; it reads as a validation error exactly when it carries field errors, hands those back, shows its non-empty message, and the data reader gives the fallback |
| ResponseReaders.ReadValidationError | apps/frontend/src/lib/response.ts:14-39 | a validation error reads back as a validation error carrying its field errors |
| ResponseReaders.ReadShortcuts | apps/frontend/src/lib/response.ts:14-30 | the shortcut errors read back as failures showing their default messages |
| Crypto.CompareAcceptsHashed | apps/backend/dist/lib/auth.js:7-12 | a password matches its own digest, whatever the salt |
| Crypto.CompareRejectsOthers | apps/backend/dist/lib/auth.js:7-12 | any other password does not match |
| Crypto.VerifySigned | apps/backend/src/routes/auth/refresh.ts:15-21 | a signed token verifies, with its claims, exactly before its expiry |
| Crypto.VerifyRejectsTampering | apps/backend/src/routes/auth/refresh.ts:15-21 | changing a token's claims or expiry makes it fail verification |
| Crypto.VerifyRejectsForeignKey | apps/backend/src/routes/auth/refresh.ts:15-21 | a token signed with another key never verifies |
| Crypto.AccessAndRefreshDiffer | apps/backend/src/routes/auth/register.ts:58-76 | the access and refresh tokens issued together are distinct |
| AuthDb.RegisterKeepsConsistent | apps/backend/src/routes/auth/register.ts:37-55 | adding a user whose email and username are both unused keeps logins unique and sessions owned |
| AuthDb.FreshUserFreshToken | apps/backend/src/routes/auth/register.ts:79-88 | a new user's refresh token is not a key of any existing session, so registering never collides |
| AuthDb.CandidateRules | apps/backend/src/routes/auth/login.ts:23-28 | a sign-in candidate is an active user whose email or username is the identifier given |
| AuthDb.AddSessionKeepsConsistent | apps/backend/src/routes/auth/login.ts:62-71 | adding a session for a stored user under a free token keeps the store consistent |
| AuthDb.TouchKeepsConsistent | apps/backend/src/routes/auth/login.ts:74-77 | updating a user's last sign-in keeps the store consistent |
| AuthDb.RefreshCheck | apps/backend/src/routes/auth/refresh.ts:15-53 | refresh is granted only for a verifying token whose session exists, has not expired and whose user is stored; otherwise it is refused with the route's message |
| AuthDb.SessionExpiryFollowsToken | apps/backend/src/routes/auth/refresh.ts:24-31 | for a stored session, refresh is granted exactly when the token verifies; an expired session is always refused as an invalid token |
| AuthDb.SessionGoodUntilExpiry | apps/backend/src/routes/auth/refresh.ts:29 | the session check alone lets a session through in the very second it expires |
| AuthDb.RefreshLifetime | apps/backend/src/routes/auth/refresh.ts:15-31 | a stored refresh token issued at time t refreshes exactly while now < t + 7 days |
| AuthDb.LoggedOut | apps/backend/src/routes/auth/logout.ts:11-16 | the given token's session is gone and every other session is kept |
| AuthDb.LogoutIdempotent | apps/backend/src/routes/auth/logout.ts:11-25 | signing out twice leaves the same sessions as once |
| AuthDb.LogoutRevokes | apps/backend/src/routes/auth/logout.ts:11-16 | after signing out, that refresh token is refused |
| AuthDb.MeData | apps/backend/src/routes/auth/me.ts:23-39 | a profile comes back exactly when the user is stored, and then it holds that user's id, email, username, first and last name, role and creation time; otherwise the data is null |
| AuthRoutes.Register | apps/backend/src/routes/auth/register.ts:23-121 | a taken email or username gives 409 and no change; otherwise the user is added, one session is stored under the refresh token, both cookies are set and the reply is 201 with the public user |
| AuthRoutes.Login | apps/backend/src/routes/auth/login.ts:23-109 | no candidate or a wrong password gives the same 401 with no change; otherwise a session is added, the last sign-in is updated and the cookies are set, or a session-key collision gives 500 |
| AuthRoutes.Refresh | apps/backend/src/routes/auth/refresh.ts:9-53 | a missing cookie gives 401; otherwise the answer follows the refresh check: a new access cookie on success, 401 with its message on refusal; the store is unchanged |
| AuthRoutes.Logout | apps/backend/src/routes/auth/logout.ts:9-25 | the cookie's session is deleted if present, both cookies are cleared, and the reply is always 200 |
| AuthRoutes.Me | apps/backend/src/routes/auth/me.ts:9-39 | no cookie or a token that does not verify gives 401; otherwise 200 with the profile, or with null data when the token's user is gone; nothing changes |
| AuthRoutes.LogoutThenRefresh | apps/backend/src/routes/auth/logout.ts:9-25 | after signing out, refreshing with the same token is refused with 401 |
| AuthRoutes.LogoutTwice | apps/backend/src/routes/auth/logout.ts:9-25 | signing out twice gives two identical 200 replies |
| AuthRoutes.MeAfterLogout | apps/backend/src/routes/auth/me.ts:9-39 | an access token still reads the profile after its session is deleted |
| AuthRoutes.LoginTwiceInOneSecond | apps/backend/src/routes/auth/login.ts:41-71 | when the first of two sign-ins of one account in the same second succeeds, the second answers 500 |
| AuthLegacy.Register | apps/backend/src/routes/auth.ts:15-57 | a taken email or username gives 409; otherwise the user is added with no session and no token, and the reply is 201 with the user |
| AuthLegacy.Login | apps/backend/src/routes/auth.ts:65-146 | no candidate or a wrong password gives the same 401; otherwise a seven-day session is added, the last sign-in updated and both tokens returned in the body, or a collision gives 500 |
| AuthLegacy.Refresh | apps/backend/src/routes/auth.ts:153-195 | the body token gets the same refresh check as the split route, with the answer in the body; nothing changes |
| AuthLegacy.Logout | apps/backend/src/routes/auth.ts:202-213 | a stored token's session is deleted with 200; an unknown token makes the delete throw, giving 500 with no change |
| AuthLegacy.Me | apps/backend/src/routes/auth.ts:216-248 | a missing or non-verifying bearer token gives 401; otherwise 200 with the stored user's profile, or with null data when that user is gone |
| AuthLegacy.LogoutTwice | apps/backend/src/routes/auth.ts:202-213 | the second sign-out with the same token fails with 500 |
| AuthLegacy.RegisterThenLogin | apps/backend/src/routes/auth.ts:15-146 | a fresh registration followed by a sign-in with the same password gives 201 then 200 |
| Catalog.ParseStatus | apps/backend/src/routes/products/list.ts:36-38 | a status string is accepted exactly when it names one of the three enum values, and it maps back to the same string |
| Catalog.InsertKeepsUnique | apps/backend/src/routes/products/create.ts:70-85 | inserting a row under a new id with an unused SKU keeps every row under its own id and every SKU unique |
| Catalog.LastExists | apps/backend/src/routes/products/create.ts:55-58 | a non-empty table has a greatest id |
| Catalog.LastUnique | apps/backend/src/routes/products/create.ts:55-58 | the greatest id is unique |
| Text.ParseAllDigits | apps/backend/src/routes/products/create.ts:63 | `parseInt` of a digit string is its value |
| Catalog.WellFormedIsGenerated | apps/backend/src/routes/products/create.ts:55-67 | every id of the shape `P` plus six digits is the generated id of its number, below one million |
| Catalog.ValueBound | apps/backend/src/routes/products/create.ts:55-67 | a string of n digits is worth less than 10^n |
| Catalog.NextIdFresh | apps/backend/src/routes/products/create.ts:55-67 | while every id is well formed and below `P999999`, the next id is well formed and not yet used |
| Catalog.ParseNines | apps/backend/src/routes/products/create.ts:63 | the number of `P999999` is 999999 |
| Catalog.MillionId | apps/backend/src/routes/products/create.ts:60-67 | the id after 999999 is `P1000000` |
| Catalog.MillionthIdStalls | apps/backend/src/routes/products/create.ts:55-67 | after `P999999`, the new id `P1000000` sorts below it, so `P999999` stays the greatest and the same id is computed again |
| Catalog.NonNumericLastId | apps/backend/src/routes/products/create.ts:60-67 | a greatest id without digits after the first character gives `P000NaN` |
| Catalog.NaNIdRestarts | apps/backend/src/routes/products/create.ts:60-67 | after `P000NaN` the next id is `P000001` |
| ProductCreate.Create | apps/backend/src/routes/products/create.ts:20-90 | a missing required field gives 422 and a negative price gives 422, with no change; otherwise the product with a fresh SKU is stored under the next id and the reply is 201, or an id already in use gives 500 |
| ProductCreate.CreateInWellFormedTable | apps/backend/src/routes/products/create.ts:55-85 | in a table of well-formed ids below `P999999`, a valid create succeeds, adds exactly one product and keeps every id well formed |
| ProductUpdate.Merged | apps/backend/src/routes/products/update.ts:50-53 | every field the body supplies (name, category, description, notes, cost, selling price, status, draft flag) takes the supplied value and every field it leaves out keeps the stored one; the id, SKU and creation time are always kept |
| ProductUpdate.MergeNothing | apps/backend/src/routes/products/update.ts:50-53 | an empty body changes nothing |
| ProductUpdate.MergeIdempotent | apps/backend/src/routes/products/update.ts:50-53 | applying the same update twice is the same as once |
| ProductUpdate.MergeCompose | apps/backend/src/routes/products/update.ts:50-53 | two updates in a row equal one update with the later fields taking precedence |
| ProductUpdate.Update | apps/backend/src/routes/products/update.ts:25-60 | an unknown id gives 404 and a negative supplied price 422, with no change; an unknown status gives 500; otherwise the product is replaced by the merge and returned with 200 |
| ProductDelete.Delete | apps/backend/src/routes/products/delete.ts:9-32 | an unknown id gives 404 with no change; otherwise exactly that product is removed and the reply is 200 |
| ProductDelete.DeleteTwice | apps/backend/src/routes/products/delete.ts:9-32 | deleting the same product twice gives 200 then 404 |
| ProductGet.Get | apps/backend/src/routes/products/get.ts:9-26 | 200 exactly when the id is stored, with that product as data; otherwise 404 "Product not found" |
| ProductList.BuildWhere | apps/backend/src/routes/products/list.ts:29-50 | the filter matches a product exactly when the query selects it: same category, status if given, no drafts unless asked, and search text in the name, SKU or description ignoring case |
| ProductList.InsertNewest | apps/backend/src/routes/products/list.ts:53-59 | inserting into a newest-first list keeps it newest first and adds exactly that product |
| ProductList.FindMany | apps/backend/src/routes/products/list.ts:53-59 | the rows found are exactly the selected stored products, newest first, each once |
| ProductList.ListingLength | apps/backend/src/routes/products/list.ts:53-61 | the listing has as many rows as there are matching product ids, which is the `total` the route reports |
| ProductList.Paged | apps/backend/src/routes/products/list.ts:53-59 | a page never has more rows than `take`; within range it is the slice from `skip` of length `take`, past the end it is empty |
| ProductList.PageOfRow | apps/backend/src/routes/products/list.ts:25-27 | every row of the listing appears on exactly the page its position gives |
| ProductList.PageCountIsCeiling | apps/backend/src/routes/products/list.ts:63-75 | for a positive limit the page count is the least number of pages holding every row |
| ProductList.PastLastPage | apps/backend/src/routes/products/list.ts:25-27 | a page beyond the page count is empty |
| ProductList.List | apps/backend/src/routes/products/list.ts:14-80 | a non-numeric page or limit, a negative skip or an unknown status gives 500; otherwise 200 with the requested page of the newest-first listing, the total and the page count |
| Pos.Bumped | apps/frontend/src/routes/POS.tsx:50-58 | same length; exactly the lines with that id change quantity by delta |
| Pos.Search | apps/frontend/src/routes/POS.tsx:31-33 | a product is shown exactly when its name contains the query ignoring case; never more than the products |
| Pos.EmptyQueryShowsAll | apps/frontend/src/routes/POS.tsx:31-33 | an empty query shows every product in order |
| Pos.AddToCartEffect | apps/frontend/src/routes/POS.tsx:35-48 | a product in the cart gains one unit in place; a new one is appended with quantity 1; ids stay unique and quantities positive |
| Pos.BumpOne | apps/frontend/src/routes/POS.tsx:50-58 | in a cart of unique ids, bumping an id changes just its line |
| Pos.PositiveOfPositive | apps/frontend/src/routes/POS.tsx:56 | the filter keeps a cart of positive quantities unchanged |
| Pos.PositiveDropsOne | apps/frontend/src/routes/POS.tsx:56 | the filter drops exactly the one non-positive line |
| Pos.UpdateKeepsLine | apps/frontend/src/routes/POS.tsx:50-58 | a change that leaves a positive quantity updates that line in place |
| Pos.UpdateDropsLine | apps/frontend/src/routes/POS.tsx:50-58 | a change that brings the quantity to zero or below removes that line |
| Pos.UpdateQuantityEffect | apps/frontend/src/routes/POS.tsx:50-58 | the exact new cart for any delta, and ids stay unique with positive quantities |
| Pos.UpdateAbsent | apps/frontend/src/routes/POS.tsx:50-58 | changing an id not in the cart leaves the cart unchanged |
| Pos.DropKeepsWellFormed | apps/frontend/src/routes/POS.tsx:56-62 | removing a line keeps ids unique and quantities positive |
| Pos.RemovedAbsent | apps/frontend/src/routes/POS.tsx:60-62 | removing an id not in the cart changes nothing |
| Pos.RemoveEffect | apps/frontend/src/routes/POS.tsx:60-62 | removing an id drops exactly its line and keeps the cart well formed |
| Pos.SubtotalConcat | apps/frontend/src/routes/POS.tsx:68-71 | the subtotal of two carts joined is the sum of their subtotals |
| Pos.SubtotalSplit | apps/frontend/src/routes/POS.tsx:68-71 | the subtotal is the lines before, the line, and the lines after |
| Pos.SubtotalReplace | apps/frontend/src/routes/POS.tsx:68-71 | replacing a line changes the subtotal by the difference of the line totals |
| Pos.AddToCartSubtotal | apps/frontend/src/routes/POS.tsx:35-71 | adding a product raises the subtotal by its price |
| Pos.BumpSubtotal | apps/frontend/src/routes/POS.tsx:50-71 | bumping a line by delta changes the subtotal by delta times its price |
| Pos.DropSubtotal | apps/frontend/src/routes/POS.tsx:56-71 | dropping a line lowers the subtotal by its line total |
| Pos.UpdateQuantitySubtotal | apps/frontend/src/routes/POS.tsx:50-71 | a change that does not overshoot zero moves the subtotal by delta times the price |
| Pos.RemoveSubtotal | apps/frontend/src/routes/POS.tsx:60-71 | removing a line lowers the subtotal by price times quantity |
| Pos.Screen.constructor | apps/frontend/src/routes/POS.tsx:18-19 | the screen starts with an empty cart and an empty query |
| Pos.Screen.AddToCart | apps/frontend/src/routes/POS.tsx:35-48 | the cart becomes the added-to cart, and stays well formed |
| Pos.Screen.UpdateQuantity | apps/frontend/src/routes/POS.tsx:50-58 | the cart becomes the updated cart, and stays well formed |
| Pos.Screen.RemoveFromCart | apps/frontend/src/routes/POS.tsx:60-62 | the cart loses that id's line, and stays well formed |
| Pos.Screen.ClearCart | apps/frontend/src/routes/POS.tsx:64-66 | the cart is empty and its subtotal is zero |
| Pos.Screen.SetSearchQuery | apps/frontend/src/routes/POS.tsx:31-33 | the query is the one typed |
| ProductSchema.TextField | apps/frontend/src/routes/products/schema.ts:4-10 | a missing key gives only "Required"; otherwise no issue exactly when the length bounds hold; every issue is at that key |
| ProductSchema.PriceField | apps/frontend/src/routes/products/schema.ts:11-23 | a missing key gives only "Required"; otherwise no issue exactly when the price is non-empty and a number not below zero |
| ProductSchema.IssuesMatchRules | apps/frontend/src/routes/products/schema.ts:3-24 | a record has no issues exactly when it satisfies every field rule; every issue names a checked field |
| ProductSchema.MissingSkuRefused | apps/frontend/src/routes/products/schema.ts:8 | a record without `sku` is refused, with "Required" at `sku` |
| ProductSchema.PriceExamples | apps/frontend/src/routes/products/schema.ts:11-23 | "12.5" reads as 12.5 and is accepted; "-3" and "abc" are refused; "-0" is accepted; the empty price passes the number check |
| ProductForm.InitialForm | apps/frontend/src/components/modals/ProductFormModal.tsx:21-28 | the record has exactly the dialog's six fields, all empty for a new product |
| ProductForm.ErrorsOfKeys | apps/frontend/src/components/modals/ProductFormModal.tsx:55-58 | a field gets an error message exactly when some issue is at that field |
| ProductForm.CollectErrors | apps/frontend/src/components/modals/ProductFormModal.tsx:55-58 | the loop over the issues builds exactly the last-message-per-field map |
| ProductForm.ErrorsOfLastWins | apps/frontend/src/components/modals/ProductFormModal.tsx:55-58 | the error map has exactly the paths with issues, each holding the message of its last issue |
| ProductForm.Dialog.constructor | apps/frontend/src/components/modals/ProductFormModal.tsx:21-30 | the dialog starts with the initial record and no errors |
| ProductForm.Dialog.HandleChange | apps/frontend/src/components/modals/ProductFormModal.tsx:37-47 | the field takes the value; its error is dropped when it holds a message; everything else is kept |
| ProductForm.Dialog.ValidateForm | apps/frontend/src/components/modals/ProductFormModal.tsx:49-62 | true exactly when the record satisfies the schema; then the errors are cleared, otherwise they are the last message per field |
| ProductForm.Dialog.HandleSave | apps/frontend/src/components/modals/ProductFormModal.tsx:64-69 | the dialog asks to close only when the record is accepted |
| ProductForm.Dialog.HandleDraft | apps/frontend/src/components/modals/ProductFormModal.tsx:71-74 | the dialog asks to close without validating |
| ProductForm.SaveNeverCloses | apps/frontend/src/components/modals/ProductFormModal.tsx:64-69 | Save never closes the dialog and always shows "Required" under `sku` |
| ProductForm.SkuIssueIsOnlyOne | apps/frontend/src/routes/products/schema.ts:3-24 | without `sku`, "Required" is the only issue at `sku` |
| RegisterPage.Optional | apps/frontend/src/routes/Register.tsx:47-53 | an empty name is left out of the request, any other is sent as typed |
| RegisterPage.Refusal | apps/frontend/src/routes/Register.tsx:33-44 | a mismatch is reported first, then a password shorter than six; the form passes exactly when the passwords agree and have six characters or more |
| RegisterPage.ErrorText | apps/frontend/src/routes/Register.tsx:62-68 | the error shown is never empty and is the server's text when that is non-empty |
| RegisterPage.Page.constructor | apps/frontend/src/routes/Register.tsx:9-18 | the page starts with six empty fields, not busy, no error |
| RegisterPage.Page.HandleChange | apps/frontend/src/routes/Register.tsx:22-25 | the field takes the value and the error line is cleared |
| RegisterPage.Page.HandleRegister | apps/frontend/src/routes/Register.tsx:27-69 | a refused form sends nothing and shows the refusal; otherwise exactly one request is sent; an answer stores the user and goes to the dashboard; an exception shows its text; the page is never left busy |
| QueryKeys.AllIsRoot | apps/frontend/src/hooks/useProducts.ts:14-21 | every product key extends the root key |
| QueryKeys.ListsCoverListings | apps/frontend/src/hooks/useProducts.ts:14-21 | every listing key extends the lists key, and no detail key does |
| QueryKeys.StaleAfterMutation | apps/frontend/src/hooks/useProducts.ts:44-85 | every mutation invalidates every listing; a product's detail is invalidated exactly by an update of that product |
| AuthClientStore.AuthStore.constructor | apps/frontend/src/store/authStore.ts:23-26 | nobody is signed in at first |
| AuthClientStore.AuthStore.SetUser | apps/frontend/src/store/authStore.ts:24-26 | the user is the one given, and signed in exactly when one is given |
| AuthClientStore.AuthStore.ClearUser | apps/frontend/src/store/authStore.ts:25-26 | nobody is signed in afterwards |

## Left out

- Text.Lower: upper/lower case is mapped for ASCII letters only. JavaScript's `toLowerCase` and Postgres' case-insensitive matching are Unicode-aware.
- Text.ParseInt: `parseInt` is modelled on an optional sign followed by digits; leading whitespace and radix prefixes are not modelled.
- ProductSchema.NumberOf: `Number` is modelled on plain decimal text; whitespace, exponents, hex literals and `Infinity` are not modelled.
- Clocks: every time is one integer of seconds. ISO timestamps, milliseconds and the response `timestamp` string are not modelled.
- Cookies: the cookie attributes (`httpOnly`, `secure`, `sameSite`, `maxAge`, `path`) are not modelled, only which tokens are set or cleared.
- AuthDb.SessionExpiryFollowsToken: holds only because the model fixes the refresh-token lifetime (`RefreshTtl`) to the session lifetime (`SessionLifetime`), seven days of seconds. The source signs the refresh token with the `JWT_REFRESH_EXPIRES_IN` setting, "7d" by default (apps/backend/src/routes/auth/register.ts:75, apps/backend/src/routes/auth/login.ts:58, apps/backend/src/routes/auth.ts:110). It stores the session expiry as seven calendar days in local time (apps/backend/src/routes/auth/register.ts:79-80, apps/backend/src/routes/auth/login.ts:62-63, apps/backend/src/routes/auth.ts:114-115), which is an hour off across a daylight-saving change. With another setting, or across such a change, the two expiries differ and the session check can decide.
- Crypto.AccessAndRefreshDiffer: relies on the default lifetimes ("15m" and "7d") being different. The `JWT_EXPIRES_IN` and `JWT_REFRESH_EXPIRES_IN` settings are not modelled.
- Crypto.CompareRejectsOthers: bcrypt reads only the first 72 bytes of a password, so two passwords that agree on those bytes match the same digest. The model's digest covers the whole password.
- Cryptography: bcrypt and JWT are idealised as above. Clock tolerance, the algorithm and the key format are left out; the salt and the new user id are parameters.
- Database ordering: `orderBy` on strings is taken as code-unit order; a database collation could order differently.
- AuthRoutes.Login: `findFirst` with several matching users picks any of them; the model chooses nondeterministically.
- AuthRoutes.Login: a duplicate session key is modelled as a 500 reply. The database's unique constraint and Fastify's error handler are not modelled themselves.
- Utils.GenerateSku: requires that at least one of the given attempts is free. The source retries without bound, with fresh random draws.
- ProductGet.Get: the 500 "Failed to fetch product" catch branch is not modelled, because nothing in the model can throw there.
- ProductList.List: the catch branch is reached only by the causes the model knows: a non-numeric page or limit, a negative skip, or an unknown status. Other database failures are not modelled.
- Prisma's integer width for `skip` and `take` is not modelled.
- null and undefined are both modelled as an absent value.
- ProductForm.Dialog.HandleChange: requires the field to be one of the dialog's six fields, as every input passes.
- RegisterPage.Page.HandleChange: requires the field to be one of the page's six fields, as every input passes.
- ProductForm.Dialog: in edit mode a product's numeric cost or price reaches zod as a number and gives a type issue. The model holds strings only.
- zod string lengths are counted in UTF-16 code units; the model counts characters.
- POS: prices are integers. The 12% VAT and the total derived from the subtotal, the float display and the cash and change panel are not modelled.
- Concurrency: the server handles requests one at a time in the model. Interleaved requests and `Promise.all` in the list route are not modelled.
- The HTTP plumbing, the axios client, the API wrapper modules, zustand's persistence and react-query's fetching are not modelled. Only the key structure and the invalidations are modelled.
- Navigation is modelled as a location field on the page.
- The inventory, POS, reports and sync route stubs, the build output under `dist/` (except the password helpers), the seed and delete scripts, the sign-in page and the presentational components are not part of this model.
