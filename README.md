# Shop backend: accounts, businesses and products

This project models the rule logic of a small web shop backend. The backend has three tables:

- users, each with a hashed password, a verified flag and a join date;
- businesses, each owned by one user;
- products, each owned by one business.

The owner chain runs product → business → user. The model covers these handlers:

- **Registration.** The username is checked first, then the e-mail. A registered user gets a business named after them, created by a hook the ORM runs after a user row is inserted.
- **E-mail verification.** A user goes from unverified to verified. Repeating the step writes nothing.
- **Logging in and resolving the bearer token.** Authentication fails softly. The token carries exactly `{id, username}` and is signed with HS256. The verification link tells a missing user (404) apart from every other failure (401). The other handlers answer 401 for every token failure.
- **Product and business changes guarded by ownership.** This covers creating, updating and deleting products, updating a business, and the two image uploads. The discount percentage is derived on the server. An upload's file extension is the second dot-separated segment of the file name, and its stored name is twenty random hex characters.

The modules are:

- `Outcomes`: the replies a handler gives and the status codes.
- `Crypto`: ideal models of bcrypt and of JSON Web Tokens (RFC 7519) signed with HMAC SHA-256 (section 3.2 of RFC 7518).
- `Pricing`: the discount.
- `Uploads`: `str.split`, the extension check, `token_hex` and the stored name.
- `Models`: the rows, column bounds, defaults and request schemas.
- `Store`: the tables as maps, the schema's constraints and the lookups.
- `Auth`: the authentication module.
- `Shop`: the request handlers, as methods of the class `Shop` over the three maps and the id counters.

Each handler method keeps the table invariants (`Shop.Valid`): the keys, uniqueness, bounds and foreign keys the schema declares, plus two rules the handlers themselves keep. No user owns two businesses, and every stored original price is positive. It states the new contents of every table in every case, and that nothing changes on every error path except one. When a registration's business insert clashes, the 400 leaves the new user row in place.

## Model

| member | source | states |
|---|---|---|
| Crypto.Truncated | authentication.py:16-20 | the part of a password bcrypt reads is a prefix of at most 72 characters, and the whole password when it is no longer |
| Crypto.Hash | authentication.py:18-20 | the hash carries the given salt and a prefix of the password of at most 72 characters |
| Crypto.Verify | authentication.py:43-51 | a stored hash verifies a password iff it is that password's hash under the stored salt |
| Crypto.VerifyHash | authentication.py:43-51 | a hash verifies exactly the passwords that agree with the hashed one on their first 72 characters, whatever the salt; within 72 characters, exactly the password it was made from |
| Crypto.LongPasswordPrefixVerifies | authentication.py:46 | a password longer than 72 characters is also verified by its first 72 characters, which is a different password |
| Crypto.Encode | authentication.py:86 | the token names HS256 (PyJWT's default) in its header, carries exactly the given claims and is signed with the given key |
| Crypto.Decode | authentication.py:25 | decoding succeeds iff the token is signed with the verifier's key under an accepted algorithm, and then gives the token's claims; a malformed token never decodes |
| Crypto.DecodeEncode | authentication.py:86 | decoding a token with the key it was signed with, accepting HS256, gives back exactly the encoded claims |
| Crypto.DecodeOnlyOwnTokens | authentication.py:25 | a token decodes under the server's key and HS256 if and only if it is a token encoded with that key |
| Pricing.Discount | main.py:266-268 | for a positive original price, the discount is 0 iff the prices are equal, negative iff the new price is higher (no clamping), 100 iff the new price is 0, and above 100 iff the new price is negative |
| Pricing.DiscountRecoversNewPrice | main.py:267-268 | the exact discount computed at main.py:267-268 determines the new price: applying it to the original price gives the new price back |
| Pricing.DiscountScaleFree | main.py:267-268 | scaling both prices by the same positive factor leaves the discount unchanged, so keeping prices in cents is faithful |
| Pricing.DiscountExample | main.py:267-268 | 100.00 reduced to 80.00 is a discount of exactly 20 |
| Uploads.Split | main.py:185 | `str.split` with one separator character gives at least one segment, exactly one iff the separator does not occur, and no segment contains the separator |
| Uploads.JoinSplit | main.py:185 | joining the segments with the separator rebuilds the file name |
| Uploads.SplitJoin | main.py:185 | splitting a join of separator-free segments gives the segments back |
| Uploads.UploadExtension | main.py:185-188 | a name without a dot fails with an uncaught index error; an accepted extension is "png" or "jpg" and is the second segment; anything else is refused with "File extension not allowed" |
| Uploads.ExtensionIsSecondSegment | main.py:185-187 | the checked extension is exactly the text between the first dot and the next dot or the end, and it is accepted iff that text is "png" or "jpg" |
| Uploads.ExtensionBetweenDots | main.py:185-188 | a name of the form `w.ext.rest` with no dot in `w` or `ext` is accepted as `ext` iff `ext` is "png" or "jpg", and refused otherwise, whatever `rest` is |
| Uploads.ExtensionIgnoresLaterDots | main.py:226-229 | "a.png.exe" is accepted as "png" |
| Uploads.ExtensionIsCaseSensitive | main.py:187 | "a.PNG" is refused |
| Uploads.TokenHex | main.py:190 | `token_hex` writes two lower-case hex digits per byte |
| Uploads.HexRoundTrip | main.py:190 | the hex text determines the random bytes it was written from |
| Uploads.StoredName | main.py:190 | the stored name is 20 hex characters, a dot, then the checked extension |
| Uploads.StoredNameRoundTrip | main.py:231 | a stored name passes the extension check with the same extension, and its first 20 characters decode to the random bytes |
| Models.NewUser | models.py:42-48 | a registered row fits the column bounds, is unverified, joins now and holds the hash, not the password |
| Models.NewBusiness | models.py:50-57 | the auto-created business fits the bounds (a username always fits as a business name), is named after the user, is owned by them, and has the defaults "Unspecified", "Unspecified", no description and "default.jpg" |
| Models.NewProduct | models.py:118-127 | a created product fits the bounds, carries the client's name, category and prices, defaults the image to "productDefault.jpg" and the expiry to today, and has its discount derived from the prices |
| Models.UpdatedProduct | main.py:340-346 | the client's name, category and prices replace the stored ones, the optional fields replace them when set and keep their values when unset, the discount is derived again, and the id and owner never change |
| Models.UpdatedBusiness | main.py:361-366 | the name, city, region, description and logo are all written from the input; a field left out gets its default rather than its old value; the id and owner never change |
| Store.UserNamed | authentication.py:57-60 | the lookup by username finds a row iff some user has that name, and then it is that user's row |
| Store.UsernameTaken | main.py:120 | the filter by username is not empty iff some user has that name |
| Store.EmailTaken | main.py:123 | the filter by e-mail is not empty iff some user has that e-mail |
| Store.ProductOwner | main.py:316-318 | the owner chain of a product ends at an existing user, and the business that user owns is the one holding the product |
| Store.BusinessOwnedBy | main.py:269 | the lookup by owner finds a business iff the user owns one, and then it is that business |
| Store.InsertUserKeepsValid | models.py:44-45 | inserting a well-formed user with a free username and e-mail keeps every table constraint |
| Store.ReplaceUserKeepsValid | main.py:160-161 | re-saving a user row with the same username and e-mail keeps every table constraint |
| Store.InsertBusinessKeepsValid | models.py:52-57 | inserting a well-formed business with a free name, for an existing user who owns none, keeps every table constraint |
| Store.ReplaceBusinessKeepsValid | models.py:52 | rewriting a business under the same owner, taking no other business's name, keeps every table constraint |
| Store.InsertProductKeepsValid | models.py:120-127 | inserting a well-formed product with a free name into an existing business keeps every table constraint |
| Store.ReplaceProductKeepsValid | models.py:120 | rewriting a product in an existing business, taking no other product's name, keeps every table constraint |
| Store.RemoveProductKeepsValid | main.py:321 | deleting a product keeps every table constraint |
| Auth.AuthenticateUser | authentication.py:53-66 | the result is a user iff some user has that name and the password verifies against their hash, and then it is that user; otherwise None rather than an exception (the library's own errors for some passwords are under Left out, Crypto.Verify) |
| Auth.MintToken | authentication.py:81-86 | the issued token decodes under the server's key to exactly the user's id and username, and under no other key |
| Auth.TokenGenerator | authentication.py:69-88 | 401 "Invalid username or password" exactly when authentication fails, otherwise the token minted for the user with that name and password |
| Auth.VeryToken | authentication.py:22-42 | the user named by a server-signed token; 404 "User no longer exists" iff the token is signed but the user is missing; 401 "Invalid or expired token" for every unsigned or foreign token |
| Auth.LoginTokenResolves | authentication.py:69-88 | a token issued at login resolves back to the user who logged in |
| Auth.MissingUserAndForgeryDiffer | authentication.py:29-40 | a server token for a missing user gives 404, while the same payload signed with another key gives 401 |
| Auth.RegisteredUserCanLogIn | main.py:127-131 | after a registration inserts a user, logging in with the registered password finds that user; another password finds them iff it agrees with the registered one on the first 72 characters, and is refused otherwise |
| Shop.GetCurrentUser | main.py:60-73 | the user a server-signed token names, and 401 "Invalid username or password" for every failure, including a signed token whose user is gone |
| Shop.CurrentUserAgreesWithVeryToken | main.py:60-73 | resolving the caller agrees with the verification link on every token it accepts, and answers 401 where the link answers 404 |
| Shop.Shop.constructor | main.py:381-387 | the database starts with three empty tables and every id counter at 1 |
| Shop.Shop.CreateBusiness | main.py:93-111 | only when the user row is newly inserted, one business named after the user and owned by them is inserted; otherwise nothing changes; a taken name makes the insert fail and nothing is created |
| Shop.Shop.Register | main.py:113-143 | a taken username gives 400 "Username already exists", checked before the e-mail; a taken e-mail then gives 400 "Email already exists"; both change nothing. Otherwise an unverified user holding the hash is inserted with its business, or, when the business name clashes, with none and a 400. Users are never removed or renamed |
| Shop.Shop.VerifyEmail | main.py:147-164 | token failures pass through (404 or 401) and change nothing; a verified user gets the "already verified" page and nothing is written; otherwise only that user's flag becomes true, no business is created, and no user is ever unverified |
| Shop.Shop.AddProduct | main.py:262-278 | a non-positive original price gives `{"status": "error"}` and creates nothing; otherwise exactly one product with the derived discount is inserted in the caller's business (404 with no business, 422 when the name is taken) |
| Shop.Shop.UpdateProduct | main.py:333-355 | 404 for a missing product; 401 "Not authenticated or invalid input" and no change unless the caller owns it and the original price is positive; otherwise only that product is rewritten with the set fields and a fresh discount (422 on a name clash) |
| Shop.Shop.DeleteProduct | main.py:313-330 | 404 for a missing product; 401 "Not authenticated to perform this acton" and no change unless the caller owns it; otherwise exactly that product is removed |
| Shop.Shop.UpdateBusiness | main.py:358-376 | 404 for a missing business; 401 and no change unless the caller owns it; otherwise only that business is rewritten and stored (422 on a name clash) |
| Shop.Shop.UpdateBusinessAsWritten | main.py:365-369 | the owner is answered with the updated business, but the un-awaited save leaves the table untouched |
| Shop.Shop.UploadProfileImage | main.py:180-220 | a refused extension answers before anything is stored; otherwise the caller's business, and nothing else, gets the stored name as its logo, and the reply is the image URL (404 with no business) |
| Shop.Shop.UploadProductImage | main.py:222-258 | the extension is checked first; then 404 for a missing product and 401 and no change unless the caller owns it; otherwise only that product's image becomes the stored name |
| Shop.VerifyTwice | main.py:152-164 | following a verification link twice: the second visit answers "already verified" and writes nothing, and a refused token is refused alike both times |
| Shop.LostBusinessUpdate | main.py:365-369 | an owner's city update is answered as "Paris" but the table keeps "Unspecified"; the intended update stores "Paris" |

## Left out

- The e-mail module (mail.py) is not part of this model. It sends the verification mail over SMTP. The only fact the model uses from it is the token payload `{id, username}`, which is `Auth.MintToken`.
- Shop.Shop.Register does not model a failing `send_email` in the hook (main.py:111). There the program answers 500 after both the user and the business rows are stored, while the model answers `Ok`.
- bcrypt and PyJWT are ideal models, not the real algorithms.
  - A hash keeps the first 72 characters of the password it was made from. A token keeps its claims, its algorithm and its signing key.
  - The model states that a hash verifies exactly the passwords sharing those 72 characters, and that a token decodes only under its own key. It does not capture that a hash cannot be inverted, nor real signature bytes.
- Crypto.Verify: passlib's bcrypt raises, where the model's `Hash` and `Verify` return a value, for a password containing a NUL character and for one longer than 4096 bytes.
  - At login the exception comes from `verify_password` (authentication.py:46, reached from line 62). It passes through `token_generator`, and the answer is 500 rather than 401. Auth.AuthenticateUser and Auth.TokenGenerator do not model it.
  - At registration a password with a NUL character makes `get_hashed_password` (main.py:127) raise outside the `try`, so the answer is 500 and nothing is created. Shop.Shop.Register does not model it and inserts the user. The 4096-byte case cannot arise there, because the schema limits passwords to 100 characters.
- The user output schema (models.py:133, which excludes the password) is used by no modelled handler, so "the password is never output" is not modelled.
- Crypto.Truncated: bcrypt's limit is 72 bytes of the UTF-8 encoding; the model counts 72 characters, which is the same only for passwords of one-byte characters. For a password with multi-byte characters, Crypto.VerifyHash and Auth.RegisteredUserCanLogIn admit fewer attempts than the program does.
- Token payloads other than `{id, username}` are not modelled. Such payloads cannot be produced without the server's key.
- Token expiry is not modelled. The tokens carry no expiry claim.
- The ORM, async execution, routing, dependency injection, templates, logging and the database setup are left out. The tables are maps keyed by id. Ids come from counters that start at 1.
- The handlers receive a caller already resolved from the bearer token. `Shop.GetCurrentUser` models that resolution on its own.
- The framework validates the request body against its schema and answers 422 before a handler runs; the handlers therefore require the column bounds of their input. The model also assumes that prices reach a handler as whole cents below 10^12 in magnitude. Nothing in the source shows a price with more than two decimals being refused, so what happens to such a price is not modelled.
- File I/O and Pillow are left out: reading the upload, writing it, and resizing it. Consequently the model does not capture that the file is written before the ownership check.
- Shop.Shop.UploadProfileImage and Shop.Shop.UploadProductImage do not model a failing `Image.open` (main.py:199, main.py:239). For an upload with an allowed extension that is not a readable image, the program answers 500 and the store does not change, while the model sets the logo or the image.
- `secrets.token_hex` is modelled as ten bytes passed in. The model makes no claim that stored names are unique.
- Pricing.Discount: the discount is an exact rational number. Storing it into an integer column rounds or truncates it in a way the source does not show, so no rounding rule is modelled. Pricing.DiscountRecoversNewPrice holds for the exact discount, not for the stored integer: 100.00 reduced to 66.67 stores 33, which gives back 67.00.
- Concurrency is not modelled. That includes races between the existence pre-checks and the inserts.
- Shop.Shop.VerifyEmail: the 403 branch after `very_token` is not modelled. It cannot be reached, because `very_token` either returns a user or raises.
- The product read endpoints, the login endpoint wrapper and `/user/me` are not part of this model.
- The profile-upload ownership check always passes, because the business was looked up by its owner. The model keeps the check, but no input can make it fail.

## Findings

| source | as written | input that shows it | evidently intended | confidence | as-written member | corrected member |
|---|---|---|---|---|---|---|
| main.py:367 | `business.save()` is called without `await`, so the save coroutine never runs and the update is answered but not stored | the owner of business 1 (default city "Unspecified") posts an update with city "Paris": the reply shows "Paris", and the stored row still says "Unspecified" | the update is saved, like the product update at main.py:347 | not executed | Shop.Shop.UpdateBusinessAsWritten | Shop.Shop.UpdateBusiness |
