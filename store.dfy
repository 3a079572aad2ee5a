/** The database the route handlers read and write, as one object holding
    the users and recipes collections, with one method per handler. Each
    method is proved equal to a pure function of the old collections, and
    the properties the routes promise are lemmas about those functions. */
module Store {

  import opened Wrappers
  import opened JsValues
  import opened RecipeModel
  import Middleware

  /** The part of a user record the handlers touch: the ids of the recipes
      the user has liked, in the order they were liked. */
  datatype User = User(likedRecipes: seq<string>)

  /** A list in which no id occurs twice. */
  predicate NoDuplicates(s: seq<string>)
  {
    forall i, j :: 0 <= i < j < |s| ==> s[i] != s[j]
  }

  /** Every user's liked list is duplicate-free, so it behaves as a set. */
  predicate LikesAreSets(users: map<string, User>)
  {
    forall k :: k in users ==> NoDuplicates(users[k].likedRecipes)
  }

  // ---------------------------------------------------------------------
  // POST /like/:id (routes/recipe.js, lines 26-49)

  /** The status code and the users collection after the like handler,
      given `req.user.id` and the recipe id from the path. */
  function LikeResult(users: map<string, User>, id: JsValue, recipeId: string): (int, map<string, User>)
  {
    match id
    case Str(k) =>
      if k !in users then (404, users)
      else if recipeId in users[k].likedRecipes then (400, users)
      else (200, users[k := User(users[k].likedRecipes + [recipeId])])
    case Undefined => (404, users)
    case Null => (404, users)
    case _ => (500, users)
  }

  /** A user id with no record gets 404 and nothing changes. */
  lemma LikeUnknownUser(users: map<string, User>, id: JsValue, recipeId: string)
    requires !(id.Str? && id.s in users)
    ensures LikeResult(users, id, recipeId).1 == users
    ensures LikeResult(users, id, recipeId).0 == 404 || LikeResult(users, id, recipeId).0 == 500
    ensures id.Str? || id.Undefined? || id.Null? ==> LikeResult(users, id, recipeId).0 == 404
  {
  }

  /** For a known user the answer is 400 exactly when the id is already
      liked, and then the collection is unchanged. */
  lemma LikeAlreadyLiked(users: map<string, User>, k: string, recipeId: string)
    requires k in users
    ensures LikeResult(users, Str(k), recipeId).0 == 400 <==> recipeId in users[k].likedRecipes
    ensures LikeResult(users, Str(k), recipeId).0 == 400 ==> LikeResult(users, Str(k), recipeId).1 == users
  {
  }

  /** A successful like appends exactly that id at the end of that user's
      list: one entry longer, the earlier entries in place, the liked set
      grown by that id alone, and every other user untouched. */
  lemma LikeAppends(users: map<string, User>, k: string, recipeId: string)
    requires k in users && recipeId !in users[k].likedRecipes
    ensures var (code, after) := LikeResult(users, Str(k), recipeId);
      && code == 200
      && after.Keys == users.Keys
      && (forall k' :: k' in users && k' != k ==> after[k'] == users[k'])
      && |after[k].likedRecipes| == |users[k].likedRecipes| + 1
      && after[k].likedRecipes[..|users[k].likedRecipes|] == users[k].likedRecipes
      && after[k].likedRecipes[|users[k].likedRecipes|] == recipeId
      && (set r | r in after[k].likedRecipes) == (set r | r in users[k].likedRecipes) + {recipeId}
  {
  }

  /** The like handler keeps every liked list duplicate-free. */
  lemma LikeKeepsLikesAreSets(users: map<string, User>, id: JsValue, recipeId: string)
    requires LikesAreSets(users)
    ensures LikesAreSets(LikeResult(users, id, recipeId).1)
  {
  }

  /** Liking twice: the second call never changes anything, and after a
      first call that succeeded it answers 400. */
  lemma LikeTwice(users: map<string, User>, id: JsValue, recipeId: string)
    ensures var (first, once) := LikeResult(users, id, recipeId);
      var (second, twice) := LikeResult(once, id, recipeId);
      && twice == once
      && (first == 200 ==> second == 400)
      && (first != 200 ==> second == first)
  {
  }

  // ---------------------------------------------------------------------
  // PUT /:id behind authMiddleware (routes/recipeRoutes.js, lines 82-106)

  /** The status code and the recipes collection after the owner's edit,
      given `req.user` (the decoded payload), the path id and the body. */
  function EditResult(recipes: map<string, Recipe>, caller: Middleware.Claims, id: string, body: Body)
    : (int, map<string, Recipe>)
  {
    if id !in recipes then (404, recipes)
    else
      var recipe := recipes[id];
      if recipe.userId.None? then (500, recipes)
      else if Str(recipe.userId.value) != Get(caller, "id") then (403, recipes)
      else
        var merged := Merge(recipe, body);
        if SchemaValid(merged) then (200, recipes[id := merged]) else (500, recipes)
  }

  /** An unknown id is 404 whoever asks and whatever the body says: the
      lookup is decided before any ownership comparison. */
  lemma EditUnknownId(recipes: map<string, Recipe>, caller: Middleware.Claims, id: string, body: Body)
    requires id !in recipes
    ensures EditResult(recipes, caller, id, body) == (404, recipes)
  {
  }

  /** A recipe stored without an owner cannot be edited by anyone: reading
      its owner's string form fails and the handler answers 500. */
  lemma EditOwnerless(recipes: map<string, Recipe>, caller: Middleware.Claims, id: string, body: Body)
    requires id in recipes && recipes[id].userId.None?
    ensures EditResult(recipes, caller, id, body) == (500, recipes)
  {
  }

  /** A caller whose `id` claim is not the owner's id string gets 403 and
      nothing is saved. */
  lemma EditByOther(recipes: map<string, Recipe>, caller: Middleware.Claims, id: string, body: Body)
    requires id in recipes && recipes[id].userId.Some?
    requires Get(caller, "id") != Str(recipes[id].userId.value)
    ensures EditResult(recipes, caller, id, body) == (403, recipes)
  {
  }

  /** The owner's edit changes only that record, only through the merge,
      never its owner, and saves only a record the schema accepts; the
      response is 200 exactly when it saves. */
  lemma EditByOwner(recipes: map<string, Recipe>, caller: Middleware.Claims, id: string, body: Body)
    requires id in recipes && recipes[id].userId.Some?
    requires Get(caller, "id") == Str(recipes[id].userId.value)
    ensures var (code, after) := EditResult(recipes, caller, id, body);
      && (code == 200 || code == 500)
      && (code == 200 <==> SchemaValid(Merge(recipes[id], body)))
      && (code == 200 ==> after == recipes[id := Merge(recipes[id], body)])
      && (code == 500 ==> after == recipes)
      && after.Keys == recipes.Keys
      && after[id].userId == recipes[id].userId
  {
  }

  /** Sending the same edit twice gives the same collection as sending it
      once, and the same answer both times. */
  lemma EditIdempotent(recipes: map<string, Recipe>, caller: Middleware.Claims, id: string, body: Body)
    ensures var (first, once) := EditResult(recipes, caller, id, body);
      EditResult(once, caller, id, body) == (first, once)
  {
    var (first, once) := EditResult(recipes, caller, id, body);
    if first == 200 {
      var merged := Merge(recipes[id], body);
      MergeIdempotent(recipes[id], body);
      assert once == recipes[id := merged] && once[id] == merged;
      assert Merge(once[id], body) == merged;
      assert once[id := merged] == once;
    }
  }

  /** Every record in the collection passes the schema's validation. */
  predicate AllValid(recipes: map<string, Recipe>)
  {
    forall k :: k in recipes ==> SchemaValid(recipes[k])
  }

  /** The owner's edit never stores a record the schema rejects. */
  lemma EditKeepsAllValid(recipes: map<string, Recipe>, caller: Middleware.Claims, id: string, body: Body)
    requires AllValid(recipes)
    ensures AllValid(EditResult(recipes, caller, id, body).1)
  {
  }

  // ---------------------------------------------------------------------
  // POST / behind authMiddleware (routes/recipeRoutes.js, lines 38-57)

  /** The document the create handler builds: the five content fields of
      the body and the owner from the token's `id` claim. */
  function OwnedDocument(caller: Middleware.Claims, body: Body): Body
  {
    map[
      "name" := Get(body, "name"),
      "imageUrl" := Get(body, "imageUrl"),
      "ingredients" := Get(body, "ingredients"),
      "instructions" := Get(body, "instructions"),
      "cookingTime" := Get(body, "cookingTime"),
      "userId" := Get(caller, "id")]
  }

  /** Saving a new document under the id the database allocates: a cast
      or validation failure, or an id already taken, is a 500. */
  function InsertResult(recipes: map<string, Recipe>, doc: Body, newId: string): (int, map<string, Recipe>)
  {
    match NewRecipe(doc)
    case None => (500, recipes)
    case Some(r) =>
      if !SchemaValid(r) || newId in recipes then (500, recipes)
      else (201, recipes[newId := r])
  }

  /** The status code and collection after the protected create. */
  function CreateResult(recipes: map<string, Recipe>, caller: Middleware.Claims, body: Body, newId: string)
    : (int, map<string, Recipe>)
  {
    InsertResult(recipes, OwnedDocument(caller, body), newId)
  }

  /** A created recipe belongs to the token's user: any `userId` in the
      body is ignored, and the stored owner is the `id` claim. */
  lemma CreateOwnedByCaller(
    recipes: map<string, Recipe>, caller: Middleware.Claims, body: Body, newId: string, v: JsValue)
    ensures CreateResult(recipes, caller, body["userId" := v], newId) == CreateResult(recipes, caller, body, newId)
    ensures var (code, after) := CreateResult(recipes, caller, body, newId);
      && (code == 201 || code == 500)
      && (code == 500 ==> after == recipes)
      && (code == 201 ==>
            && newId !in recipes
            && after.Keys == recipes.Keys + {newId}
            && (forall k :: k in recipes ==> after[k] == recipes[k])
            && SchemaValid(after[newId])
            && CastObjectId(Get(caller, "id")) == Some(after[newId].userId))
  {
  }

  /** The creator can edit what they created: a recipe created under a
      string `id` claim is never refused with 404 or 403 to that caller. */
  lemma CreatorMayEdit(
    recipes: map<string, Recipe>, caller: Middleware.Claims, body: Body, newId: string, edit: Body)
    requires Get(caller, "id").Str?
    requires CreateResult(recipes, caller, body, newId).0 == 201
    ensures var after := CreateResult(recipes, caller, body, newId).1;
      EditResult(after, caller, newId, edit).0 == 200 || EditResult(after, caller, newId, edit).0 == 500
    ensures var after := CreateResult(recipes, caller, body, newId).1;
      SchemaValid(Merge(after[newId], edit)) ==> EditResult(after, caller, newId, edit).0 == 200
  {
  }

  // ---------------------------------------------------------------------
  // POST / and PUT /:id without authentication (routes/recipe.js, lines 8-17 and 52-55)

  /** The document the unchecked create builds: the body's `userId` goes
      under `postedBy`, which the schema does not declare. */
  function PostedByDocument(body: Body): Body
  {
    map[
      "name" := Get(body, "name"),
      "imageUrl" := Get(body, "imageUrl"),
      "ingredients" := Get(body, "ingredients"),
      "instructions" := Get(body, "instructions"),
      "cookingTime" := Get(body, "cookingTime"),
      "postedBy" := Get(body, "userId")]
  }

  /** The status code and collection after the unchecked create. */
  function CreateUncheckedResult(recipes: map<string, Recipe>, body: Body, newId: string)
    : (int, map<string, Recipe>)
  {
    InsertResult(recipes, PostedByDocument(body), newId)
  }

  /** The unchecked create never records an owner, whatever `userId` the
      body names, so the owner's edit can never succeed on what it stores:
      every such edit answers 500. */
  lemma CreateUncheckedIsOwnerless(
    recipes: map<string, Recipe>, body: Body, newId: string, caller: Middleware.Claims, edit: Body)
    ensures "postedBy" !in DeclaredPaths
    ensures var (code, after) := CreateUncheckedResult(recipes, body, newId);
      && (code == 201 || code == 500)
      && (code == 500 ==> after == recipes)
      && (code == 201 ==> after.Keys == recipes.Keys + {newId} && after[newId].userId.None?)
      && (code == 201 ==> EditResult(after, caller, newId, edit) == (500, after))
  {
  }

  /** The unchecked edit: `None` for the code when the update's cast
      fails and the rejected promise leaves the request unanswered;
      otherwise 200, with `null` as the body when the id is unknown. */
  function EditUncheckedResult(recipes: map<string, Recipe>, id: string, body: Body)
    : (Option<int>, map<string, Recipe>)
  {
    if id !in recipes then (Some(200), recipes)
    else
      match Update(recipes[id], body)
      case None => (None, recipes)
      case Some(r) => (Some(200), recipes[id := r])
  }

  /** The unchecked edit on any id and body: an unknown id answers 200 and
      writes nothing; a `userId` that cannot be cast leaves no reply and no
      write; otherwise the reply is 200, only that record changes, each
      declared path the body carries takes the body's value, and every other
      path, the owner included, keeps the stored value. */
  lemma EditUncheckedWrites(recipes: map<string, Recipe>, id: string, body: Body)
    ensures id !in recipes ==> EditUncheckedResult(recipes, id, body) == (Some(200), recipes)
    ensures id in recipes ==>
      var (reply, after) := EditUncheckedResult(recipes, id, body);
      && (reply.None? <==> "userId" in body && body["userId"] != Undefined && CastObjectId(body["userId"]).None?)
      && (reply.None? ==> after == recipes)
      && (reply.Some? ==>
            && reply == Some(200)
            && after.Keys == recipes.Keys
            && (forall k :: k in recipes && k != id ==> after[k] == recipes[k])
            && (forall p :: p in ContentPaths ==>
                  Value(after[id], p) == (if p in body && body[p] != Undefined then body[p] else Value(recipes[id], p)))
            && after[id].userId ==
                 (if "userId" in body && body["userId"] != Undefined then CastObjectId(body["userId"]).value
                  else recipes[id].userId))
  {
    if id in recipes && Update(recipes[id], body).Some? {
      UpdateSetsPresentPaths(recipes[id], body);
    }
  }

  /** No identity takes part in the unchecked edit: any request may change
      the owner of any recipe, or blank out a required field. */
  lemma EditUncheckedAnyone(recipes: map<string, Recipe>, id: string, who: string)
    requires id in recipes
    ensures EditUncheckedResult(recipes, id, map["userId" := Str(who)])
      == (Some(200), recipes[id := recipes[id].(userId := Some(who))])
    ensures var after := EditUncheckedResult(recipes, id, map["name" := Str("")]).1;
      after[id].name == Str("") && !AllValid(after)
  {
  }

  // ---------------------------------------------------------------------
  // The collections, updated in place by the handlers

  class Db {
    var users: map<string, User>
    var recipes: map<string, Recipe>

    /** The invariant the like handler maintains. */
    ghost predicate Valid()
      reads this
    {
      LikesAreSets(users)
    }

    constructor (users0: map<string, User>, recipes0: map<string, Recipe>)
      ensures users == users0 && recipes == recipes0
      ensures Valid() <==> LikesAreSets(users0)
    {
      users := users0;
      recipes := recipes0;
    }

    /** routes/recipe.js, lines 26-49: find the user, refuse a repeat,
        push the id and save. The recipes collection is neither read nor
        written. */
    method Like(id: JsValue, recipeId: string) returns (code: int)
      modifies this
      ensures (code, users) == LikeResult(old(users), id, recipeId)
      ensures recipes == old(recipes)
      ensures old(Valid()) ==> Valid()
    {
      if !(id.Str? || id.Undefined? || id.Null?) {
        return 500;
      }
      if !id.Str? || id.s !in users {
        return 404;
      }
      var user := users[id.s];
      if recipeId in user.likedRecipes {
        return 400;
      }
      user := user.(likedRecipes := user.likedRecipes + [recipeId]);
      users := users[id.s := user];
      code := 200;
      if old(Valid()) {
        LikeKeepsLikesAreSets(old(users), id, recipeId);
      }
    }

    /** routes/recipeRoutes.js, lines 82-106: load, check the owner, assign
        the five fields with `||` fallback, then save. */
    method Edit(caller: Middleware.Claims, id: string, body: Body) returns (code: int)
      modifies this
      ensures (code, recipes) == EditResult(old(recipes), caller, id, body)
      ensures users == old(users)
    {
      if id !in recipes {
        return 404;
      }
      var recipe := recipes[id];
      if recipe.userId.None? {
        return 500;
      }
      if Str(recipe.userId.value) != Get(caller, "id") {
        return 403;
      }
      recipe := recipe.(name := Or(Get(body, "name"), recipe.name));
      recipe := recipe.(imageUrl := Or(Get(body, "imageUrl"), recipe.imageUrl));
      recipe := recipe.(ingredients := Or(Get(body, "ingredients"), recipe.ingredients));
      recipe := recipe.(instructions := Or(Get(body, "instructions"), recipe.instructions));
      recipe := recipe.(cookingTime := Or(Get(body, "cookingTime"), recipe.cookingTime));
      if !SchemaValid(recipe) {
        return 500;
      }
      recipes := recipes[id := recipe];
      code := 200;
    }

    /** Build the record from a document and save it under the id the
        database allocates. */
    method Insert(doc: Body, newId: string) returns (code: int)
      modifies this
      ensures (code, recipes) == InsertResult(old(recipes), doc, newId)
      ensures users == old(users)
    {
      var built := NewRecipe(doc);
      if built.None? || !SchemaValid(built.value) || newId in recipes {
        return 500;
      }
      recipes := recipes[newId := built.value];
      code := 201;
    }

    /** routes/recipeRoutes.js, lines 38-57. */
    method Create(caller: Middleware.Claims, body: Body, newId: string) returns (code: int)
      modifies this
      ensures (code, recipes) == CreateResult(old(recipes), caller, body, newId)
      ensures users == old(users)
    {
      code := Insert(OwnedDocument(caller, body), newId);
    }

    /** routes/recipe.js, lines 8-17. */
    method CreateUnchecked(body: Body, newId: string) returns (code: int)
      modifies this
      ensures (code, recipes) == CreateUncheckedResult(old(recipes), body, newId)
      ensures users == old(users)
    {
      code := Insert(PostedByDocument(body), newId);
    }

    /** routes/recipe.js, lines 52-55. */
    method EditUnchecked(id: string, body: Body) returns (code: Option<int>)
      modifies this
      ensures (code, recipes) == EditUncheckedResult(old(recipes), id, body)
      ensures users == old(users)
    {
      if id !in recipes {
        return Some(200);
      }
      var updated := Update(recipes[id], body);
      if updated.None? {
        return None;
      }
      recipes := recipes[id := updated.value];
      code := Some(200);
    }
  }

  /** The like scenario: a user with no likes likes "r1" and gets 200 and
      `["r1"]`; liking it again gets 400 and leaves the state alone, and the
      recipe need not exist. */
  method LikeScenario()
  {
    var db := new Db(map["u1" := User([])], map[]);
    assert db.Valid();
    var first := db.Like(Str("u1"), "r1");
    assert first == 200 && db.users["u1"].likedRecipes == ["r1"];
    var snapshot := db.users;
    var second := db.Like(Str("u1"), "r1");
    assert second == 400 && db.users == snapshot && db.Valid();
  }
}
