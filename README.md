# Recipe backend: authorization, ownership and like rules

A Dafny model of the decision rules in a small Express/Mongoose recipe
backend. The HTTP layer, the database and the JWT library are replaced by
values and oracles; what remains is verified:

- **Bearer header** (`Bearer`): the token is `header.split(" ")[1]`, the
  second single-space-separated field. It is not everything after the first space.
- **The two middlewares** (`Middleware`): `authenticate` and
  `authMiddleware` as total functions from the header to `Next(req.user)` or
  `Status(code, message)`. `jwt.verify` is an oracle `string -> Option<Claims>`.
  `User.findById` is an oracle `JsValue -> Lookup` (found, missing, throws).
- **The Recipe record** (`RecipeModel`): the schema's fields, its
  required-field rule, how `new Recipe(doc)` reads a document, the owner's
  `||` merge and the unchecked `$set` update. JavaScript truthiness is explicit
  in `JsValues`.
- **The handlers** (`Store`): one `Db` object holds the `users` and
  `recipes` collections. Each handler is a method that updates them in place:
  like, owner-checked edit and create, and the unchecked create and edit.
  Each method is proved equal to a pure function of the old collections
  (`LikeResult`, `EditResult`, `CreateResult`, ...). The lemmas beside those
  functions state the status-code tables and the invariants. `Store.LikeScenario`
  walks through one user liking the same recipe twice: 200, then 400 with no change.

The code does the following, which a reader might not expect:

- The token is the second space-separated field of the header, not the rest of it.
- The like handler neither checks that the recipe exists nor keeps a like counter.
- The ownership test compares the stored owner's string form with the token's
  `id` claim. A recipe with no owner fails with 500, not 403.
- The two middlewares answer a bad token with different codes (401 and 403).

## Model

| member | source | states |
|---|---|---|
| `JsValues.Or` | routes/recipeRoutes.js:95-99 | `a \|\| b` is one of its operands, and it is truthy exactly when either operand is |
| `JsValues.FalsyValues` | routes/recipeRoutes.js:95-99 | `undefined`, `null`, `false`, `0` and `""` are falsy; `[]`, `{}` and non-empty strings are truthy |
| `JsValues.Truthy` | routes/recipeRoutes.js:95-99 | `undefined` and `null` are never truthy; every array and object, even an empty one, is truthy |
| `Bearer.Split` | middleware/authenticate.js:6 | `split(" ")` always yields at least one field; `JoinSplit` and `FieldsSpaceFree` pin down the rest |
| `Bearer.SecondField` | middleware/authMiddleware.js:16 | `split(" ")[1]` is undefined exactly when the string has no space, and a token it yields holds no space |
| `Bearer.JoinSplit` | middleware/authenticate.js:6 | splitting the header on `" "` loses nothing: joining the fields with single spaces gives the header back |
| `Bearer.FieldsSpaceFree` | middleware/authenticate.js:6 | no field of the split contains a space |
| `Bearer.SingleFieldIff` | middleware/authMiddleware.js:16 | the split has a single field exactly when the header has no space |
| `Bearer.SplitAfterScheme` | middleware/authenticate.js:6 | splitting `scheme + " " + rest` gives the scheme followed by the fields of `rest` |
| `Bearer.FirstFieldIsRun` | middleware/authenticate.js:6 | field 0 is the longest space-free prefix of the string |
| `Bearer.TokenOfBearer` | middleware/authenticate.js:6 | the token of `scheme + " " + rest` is the leading space-free run of `rest`, not the whole of `rest` |
| `Bearer.FirstFieldOf` | middleware/authenticate.js:6 | a space-free token followed by nothing or by a space is the leading field |
| `Bearer.TokenExact` | middleware/authenticate.js:6 | `scheme + " " + token + tail` yields exactly `token` when the tail is empty or starts with a space |
| `Bearer.HeaderExamples` | middleware/authenticate.js:6 | `"Bearer abc"` gives `"abc"`; `"Bearer  abc"` gives `""`; `"Bearer abc def"` gives `"abc"`; `"Bearer"` and `""` give none |
| `Middleware.JwtVerify` | middleware/authMiddleware.js:16 | an undefined or empty token never verifies, whatever the verify oracle says |
| `Middleware.HeaderToken` | middleware/authenticate.js:6 | `header?.split(" ")[1]` is defined exactly when a header is present and holds a space, and the token holds no space |
| `Middleware.Authenticate` | middleware/authenticate.js:5-25 | every refusal is 401 or 404; on `next()`, `req.user` has only the `id` claim, and the lookup found that id |
| `Middleware.AuthMiddleware` | middleware/authMiddleware.js:6-22 | every refusal is 401 or 403; the code is 401 exactly when the header is missing or empty |
| `Middleware.AuthenticateWithoutToken` | middleware/authenticate.js:6-10 | no header, or a header with no space: 401 "No token", whatever verify and the lookup would say |
| `Middleware.AuthenticateEmptyToken` | middleware/authenticate.js:6-10 | `scheme + "  " + rest` (two spaces) gives an empty token: 401 "No token", without consulting verify |
| `Middleware.AuthenticateBearer` | middleware/authenticate.js:12-24 | for a real token: a verify failure is 401 "Invalid token"; a found user gives `next()` with `{id}`; a missing user gives 404; a lookup that throws gives 401 |
| `Middleware.AuthenticateNextIff` | middleware/authenticate.js:16-21 | `next()` is reached exactly when a non-empty token verifies and its `id` claim finds a user |
| `Middleware.AuthMiddlewareNoSpace` | middleware/authMiddleware.js:14-21 | a non-empty header with no space is 403, whatever verify says, because verify gets `undefined` |
| `Middleware.AuthMiddlewareBearer` | middleware/authMiddleware.js:14-21 | for `scheme + " " + token + tail`: `next()` with the whole payload when the token verifies; otherwise 403, and an empty token is always 403 |
| `Middleware.MiddlewaresDisagree` | middleware/authMiddleware.js:6-22 | a verified token for a user with no record passes authMiddleware but gets 404 from authenticate; a bare scheme gets 403 from one and 401 from the other |
| `RecipeModel.SchemaValid` | models/Recipe.js:3-10 | a record passes validation exactly when each of the five required paths holds its declared type: non-empty strings for `name`, `imageUrl` and `instructions`, a list of strings for `ingredients`, a number for `cookingTime`; `userId` is optional |
| `RecipeModel.CastObjectId` | models/Recipe.js:9 | the owner path accepts a string, or `undefined`/`null` (no owner); anything else is a cast error |
| `RecipeModel.NewRecipe` | models/Recipe.js:3-10 | `new Recipe(doc)` fails only when `userId` cannot be cast; otherwise each content path takes the document's value, `ingredients` defaults to `[]`, and the owner is the cast `userId` |
| `RecipeModel.NewRecipeReadsDeclaredPaths` | models/Recipe.js:3-10 | a new record depends only on the declared paths: adding any other key to the document changes nothing |
| `RecipeModel.Merge` | routes/recipeRoutes.js:95-99 | each of the five content fields takes the body's value iff that value is truthy, else keeps the stored one; `userId` never changes |
| `RecipeModel.MergeIdempotent` | routes/recipeRoutes.js:95-99 | applying the same body twice gives the record one application gives |
| `RecipeModel.MergeFalsyBodyIsIdentity` | routes/recipeRoutes.js:95-99 | a body with no truthy content field leaves the record unchanged |
| `RecipeModel.MergeTruthyBodyOverwrites` | routes/recipeRoutes.js:95-99 | a body whose five content fields are all truthy fixes the result, whatever the old content was |
| `RecipeModel.MergeKeepsSchemaValid` | models/Recipe.js:4-8 | a valid record stays valid under a body whose truthy fields have the declared types |
| `RecipeModel.MergeFalsyExamples` | routes/recipeRoutes.js:95-99 | `cookingTime: 0` and `name: ""` keep the old values; `ingredients: []` replaces them; a body `userId` is ignored |
| `RecipeModel.Update` | routes/recipe.js:53 | for a body without `$` keys, `findByIdAndUpdate` fails exactly when the body carries a `userId` of a JS type that cannot be cast |
| `RecipeModel.UpdateSetsPresentPaths` | routes/recipe.js:52-55 | for every record and every accepted body without `$` keys, each declared path the body carries takes the body's value, falsy or not, and every other path, the owner included, keeps the stored value |
| `RecipeModel.UpdateContrast` | routes/recipe.js:52-55 | the unchecked update writes falsy values, can make a record fail the schema, and can set, clear or fail to cast the owner |
| `Store.LikeUnknownUser` | routes/recipe.js:30-33 | a user id with no record gets 404 (500 for an uncastable id), and nothing changes |
| `Store.LikeAlreadyLiked` | routes/recipe.js:37-39 | for a known user the answer is 400 exactly when the id is already liked, and then nothing changes |
| `Store.LikeAppends` | routes/recipe.js:41-44 | otherwise 200: exactly that id is appended at the end, length grows by one, earlier entries and other users are unchanged, and the liked set grows by that id alone |
| `Store.LikeKeepsLikesAreSets` | routes/recipe.js:37-41 | the like handler keeps every user's liked list duplicate-free |
| `Store.LikeTwice` | routes/recipe.js:37-44 | a second identical like changes nothing; after a first 200 it answers 400 |
| `Store.EditUnknownId` | routes/recipeRoutes.js:84-87 | an unknown id is 404 for every caller and body, before any ownership test |
| `Store.EditOwnerless` | routes/recipeRoutes.js:90-105 | a record with no `userId` cannot be edited: `toString()` throws and every request gets 500, nothing saved |
| `Store.EditByOther` | routes/recipeRoutes.js:89-92 | a caller whose `id` claim differs from the owner's id string gets 403 and nothing is saved |
| `Store.EditByOwner` | routes/recipeRoutes.js:94-102 | the owner's edit saves exactly the merged record when the schema accepts it (200), else 500 with nothing saved; no other record and not the owner change |
| `Store.EditIdempotent` | routes/recipeRoutes.js:95-101 | the same edit sent twice gives the same answer and the same collection as sending it once |
| `Store.EditKeepsAllValid` | routes/recipeRoutes.js:101 | the owner's edit never stores a record the schema rejects |
| `Store.CreateOwnedByCaller` | routes/recipeRoutes.js:38-57 | the stored owner is the token's `id` claim and any body `userId` is ignored; 201 adds exactly one valid record under the new id, 500 changes nothing |
| `Store.CreatorMayEdit` | routes/recipeRoutes.js:40-49 | a recipe created under a string `id` claim is never refused to that caller with 404 or 403 |
| `Store.CreateUncheckedIsOwnerless` | routes/recipe.js:8-17 | the body's `userId` lands under the undeclared `postedBy`, so the stored record has no owner and every owner-checked edit of it answers 500 |
| `Store.EditUncheckedWrites` | routes/recipe.js:52-55 | for every body without `$` keys: an unknown id is 200 with no write; an uncastable `userId` gives no reply and no write; otherwise 200, only that record changes, each declared path the body carries is written and every other path, the owner included, is kept |
| `Store.EditUncheckedAnyone` | routes/recipe.js:52-55 | with no identity involved, any request can hand a recipe to a new owner or blank a required field |
| `Store.Db.Like` | routes/recipe.js:26-49 | the code and new users collection are `LikeResult` of the old one; recipes are untouched; duplicate-free liked lists stay duplicate-free |
| `Store.Db.Edit` | routes/recipeRoutes.js:82-106 | the code and new recipes collection are `EditResult` of the old one; users are untouched |
| `Store.Db.Insert` | routes/recipeRoutes.js:43-56 | builds the record from the document and saves it under the new id, as `InsertResult` states |
| `Store.Db.Create` | routes/recipeRoutes.js:38-57 | the code and new recipes collection are `CreateResult` of the old one |
| `Store.Db.CreateUnchecked` | routes/recipe.js:8-17 | the code and new recipes collection are `CreateUncheckedResult` of the old one |
| `Store.Db.EditUnchecked` | routes/recipe.js:52-55 | the reply and new recipes collection are `EditUncheckedResult` of the old one |

## Left out

- server.js: configuration loading, CORS, the exit on a missing database URL, the database connection and the listener are process bootstrap and I/O.
- Router dispatch and mount order: routes/recipe.js is mounted before routes/recipeRoutes.js, so its unchecked `PUT /:id` and `POST /` (server.js:14-15) answer first. The mounted app therefore never reaches the protected create at routes/recipeRoutes.js:38-57 that `Store.Db.Create`, `Store.CreateOwnedByCaller` and `Store.CreatorMayEdit` describe. Each handler is modelled on its own.
- The like handler copy in routes/recipeRoutes.js:60-78: it uses `User`, which that file never imports, so it can only reach its 500 catch. The like logic is taken from routes/recipe.js.
- The search and list routes (routes/recipe.js:20-23, routes/recipeRoutes.js:10-33), routes/contact.js and routes/userRoutes.js: single database reads or writes with no decision logic.
- JWT signatures and expiry: the verify function is an oracle, so its failure kinds (bad signature, expired, malformed) are one failure.
- Mongoose casting of content values: stored values keep the JS type they arrived with. On the validated routes (both creates and the owner's edit), a value Mongoose would cast (`"30"` for `cookingTime`) counts as ill-typed and fails validation with 500.
- `RecipeModel.Update`, `RecipeModel.UpdateSetsPresentPaths`, `Store.EditUncheckedWrites`: the unchecked update (routes/recipe.js:53) hands `req.body` to `findByIdAndUpdate` whole. There, a top-level key starting with `$` is applied as a MongoDB update operator, which can change, clear or reject any path, the owner included. `{"$unset": {"userId": ""}}` clears the owner with 200, and `{"$inc": {"name": 1}}` is rejected with no reply and no write. The model reads only the declared paths and ignores such keys, so it keeps the record and answers 200. These members' contracts therefore hold only for bodies without `$` keys. Casting is not modelled either: a content value Mongoose cannot cast (`cookingTime: "abc"`), or a `userId` string that is not a well-formed ObjectId, rejects the update with no reply and no write, while the model stores the value and answers 200.
- ObjectId normal form: ids are taken to be lower-case 24-hex-digit strings. `CastObjectId` keeps a string unchanged, while Mongoose stores and prints an id in lower case. For an upper-case hex `id` claim, `recipe.userId.toString() !== req.user.id` refuses the creator with 403, a case `Store.CreatorMayEdit` does not cover. Whether a string is a well-formed ObjectId is not checked, and path ids are plain map keys.
- An uncastable id in a database call: in the like handler, a `req.user.id` other than a string, `undefined` or `null` is a cast error caught as 500. `undefined` and `null` find no user, so they get 404. Cast failures of the path id in the other routes are not modelled.
- Response bodies: handler replies carry only the status code. The JSON they send (messages, the recipe, the liked list) is not modelled. The middleware outcomes keep their messages.
- models/User.js is not part of this model. A user record is reduced to its `likedRecipes` list of id strings, and `includes` compares strings.
- `User.findById` appears twice: as the `Middleware.Lookup` oracle in `authenticate`, and as the map lookup with a cast rule in `Store.LikeResult`. Nothing relates the two, so the like handler's 404 for a known id assumes the user record vanished after `authenticate` found it.
- The like counter and the concurrent-like race: the code has no counter, and request interleaving is out of scope.
- Request bodies that are not JSON objects. Numbers are the finite values a parse yields; `Infinity` from an overflowing literal such as `1e400` is left out.
- `console.log` debugging output.
