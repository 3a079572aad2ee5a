/** The Recipe record of models/Recipe.js, its required-field rule, and the
    three ways the routes turn request data into a record: building a new
    document, the owner's `||` merge, and the unchecked `$set` update. */
module RecipeModel {

  import opened Wrappers
  import opened JsValues

  /** An ObjectId, in the 24-hex-digit form its `toString()` gives. */
  type ObjectId = string

  /** A stored recipe. The five content fields hold whatever JS value was
      stored (type casting is not modelled); `userId` is the optional owner
      reference, `None` when the document has no owner. */
  datatype Recipe = Recipe(
    name: JsValue,
    imageUrl: JsValue,
    ingredients: JsValue,
    instructions: JsValue,
    cookingTime: JsValue,
    userId: Option<ObjectId>)

  /** The paths the schema declares; any other key of a document is dropped. */
  const DeclaredPaths: set<string> :=
    {"name", "imageUrl", "ingredients", "instructions", "cookingTime", "userId"}

  /** The five content fields: all required, all editable by the owner. */
  const ContentPaths: set<string> :=
    {"name", "imageUrl", "ingredients", "instructions", "cookingTime"}

  /** The value a content path holds in a record. */
  function Value(r: Recipe, path: string): JsValue
    requires path in ContentPaths
  {
    if path == "name" then r.name
    else if path == "imageUrl" then r.imageUrl
    else if path == "ingredients" then r.ingredients
    else if path == "instructions" then r.instructions
    else r.cookingTime
  }

  /** A required String path accepts only a non-empty string. */
  predicate RequiredString(v: JsValue)
  {
    v.Str? && v.s != ""
  }

  /** A `[String]` path: an array whose every element is a string. */
  predicate StringList(v: JsValue)
  {
    v.Arr? && forall i :: 0 <= i < |v.items| ==> v.items[i].Str?
  }

  /** What the schema accepts at each content path. */
  predicate PathAccepts(path: string, v: JsValue)
  {
    if path == "ingredients" then StringList(v)
    else if path == "cookingTime" then v.Num?
    else RequiredString(v)
  }

  /** The schema's validation on save: every content path is present with
      its declared type; `userId` is optional. */
  predicate SchemaValid(r: Recipe)
    ensures SchemaValid(r) <==> forall p :: p in ContentPaths ==> PathAccepts(p, Value(r, p))
  {
    && RequiredString(r.name)
    && RequiredString(r.imageUrl)
    && StringList(r.ingredients)
    && RequiredString(r.instructions)
    && r.cookingTime.Num?
  }

  /** Casting a JS value to the optional ObjectId path: a string is taken as
      the id, `undefined` and `null` leave the path empty, anything else is a
      cast error (`None`). */
  function CastObjectId(v: JsValue): (c: Option<Option<ObjectId>>)
    ensures c.Some? <==> (v.Str? || v.Undefined? || v.Null?)
    ensures c.Some? && c.value.Some? ==> v == Str(c.value.value)
  {
    match v
    case Str(s) => Some(Some(s))
    case Undefined => Some(None)
    case Null => Some(None)
    case _ => None
  }

  /** `new Recipe(doc)`: the declared paths of the document, an array path
      defaulting to `[]` when undefined, and a cast error when `userId`
      cannot be an ObjectId. Keys the schema does not declare are dropped. */
  function NewRecipe(doc: Body): (r: Option<Recipe>)
    ensures r.Some? <==> CastObjectId(Get(doc, "userId")).Some?
    ensures r.Some? ==> Some(r.value.userId) == CastObjectId(Get(doc, "userId"))
    ensures r.Some? ==> forall p :: p in ContentPaths && p != "ingredients" ==> Value(r.value, p) == Get(doc, p)
    ensures r.Some? ==> r.value.ingredients == if Get(doc, "ingredients") == Undefined then Arr([]) else Get(doc, "ingredients")
  {
    match CastObjectId(Get(doc, "userId"))
    case None => None
    case Some(owner) =>
      var ingredients := Get(doc, "ingredients");
      Some(Recipe(
        Get(doc, "name"),
        Get(doc, "imageUrl"),
        if ingredients == Undefined then Arr([]) else ingredients,
        Get(doc, "instructions"),
        Get(doc, "cookingTime"),
        owner))
  }

  /** The record a document yields depends only on its declared paths. */
  lemma NewRecipeReadsDeclaredPaths(doc: Body, key: string, v: JsValue)
    requires key !in DeclaredPaths
    ensures NewRecipe(doc[key := v]) == NewRecipe(doc)
  {
  }

  /** The owner's edit (routes/recipeRoutes.js, lines 95-99): each content
      field becomes `body.field || recipe.field`. */
  function Merge(r: Recipe, body: Body): (m: Recipe)
    ensures m.userId == r.userId
    ensures forall p :: p in ContentPaths ==>
      Value(m, p) == (if Truthy(Get(body, p)) then Get(body, p) else Value(r, p))
  {
    Recipe(
      Or(Get(body, "name"), r.name),
      Or(Get(body, "imageUrl"), r.imageUrl),
      Or(Get(body, "ingredients"), r.ingredients),
      Or(Get(body, "instructions"), r.instructions),
      Or(Get(body, "cookingTime"), r.cookingTime),
      r.userId)
  }

  /** Sending the same edit twice leaves the record as one edit did. */
  lemma MergeIdempotent(r: Recipe, body: Body)
    ensures Merge(Merge(r, body), body) == Merge(r, body)
  {
  }

  /** A body with no truthy content field leaves the record as it was. */
  lemma MergeFalsyBodyIsIdentity(r: Recipe, body: Body)
    requires forall p :: p in ContentPaths ==> !Truthy(Get(body, p))
    ensures Merge(r, body) == r
  {
  }

  /** A body whose five content fields are all truthy overwrites every
      content field: the result does not depend on the old content. */
  lemma MergeTruthyBodyOverwrites(r: Recipe, r': Recipe, body: Body)
    requires forall p :: p in ContentPaths ==> Truthy(Get(body, p))
    requires r.userId == r'.userId
    ensures Merge(r, body) == Merge(r', body)
  {
  }

  /** A body whose truthy content fields have the declared types keeps a
      valid record valid: falsy fields fall back to the stored values. */
  lemma MergeKeepsSchemaValid(r: Recipe, body: Body)
    requires SchemaValid(r)
    requires forall p :: p in ContentPaths && Truthy(Get(body, p)) ==> PathAccepts(p, Get(body, p))
    ensures SchemaValid(Merge(r, body))
  {
  }

  /** `0` and `""` cannot clear a field through the merge, but an empty
      ingredient list does replace the stored one. */
  lemma MergeFalsyExamples(r: Recipe)
    ensures Merge(r, map["cookingTime" := Num(0.0)]).cookingTime == r.cookingTime
    ensures Merge(r, map["name" := Str("")]).name == r.name
    ensures Merge(r, map["ingredients" := Arr([])]).ingredients == Arr([])
    ensures Merge(r, map["userId" := Str("intruder")]) == r
  {
  }

  /** `body.field` when the body carries the key, else the stored value. */
  function SetIfPresent(body: Body, path: string, stored: JsValue): JsValue
  {
    if path in body && body[path] != Undefined then body[path] else stored
  }

  /** `findByIdAndUpdate(id, body)` (routes/recipe.js, lines 52-55): every
      declared path present in the body is set, with no validation; `None`
      when `userId` fails to cast. */
  function Update(r: Recipe, body: Body): (u: Option<Recipe>)
    ensures u.None? <==> "userId" in body && body["userId"] != Undefined && CastObjectId(body["userId"]).None?
  {
    var owner :=
      if "userId" in body && body["userId"] != Undefined then CastObjectId(body["userId"])
      else Some(r.userId);
    match owner
    case None => None
    case Some(o) =>
      Some(Recipe(
        SetIfPresent(body, "name", r.name),
        SetIfPresent(body, "imageUrl", r.imageUrl),
        SetIfPresent(body, "ingredients", r.ingredients),
        SetIfPresent(body, "instructions", r.instructions),
        SetIfPresent(body, "cookingTime", r.cookingTime),
        o))
  }

  /** The unchecked update, for every record and body it accepts: each
      declared path the body carries takes the body's value, falsy or not,
      and every other path keeps the stored value. */
  lemma UpdateSetsPresentPaths(r: Recipe, body: Body)
    requires Update(r, body).Some?
    ensures forall p :: p in ContentPaths ==>
      Value(Update(r, body).value, p) == (if p in body && body[p] != Undefined then body[p] else Value(r, p))
    ensures Update(r, body).value.userId ==
      if "userId" in body && body["userId"] != Undefined then CastObjectId(body["userId"]).value else r.userId
  {
  }

  /** Unlike the merge, the unchecked update writes falsy values too, can
      take a valid record out of the schema, and can hand the record to a
      new owner or none. */
  lemma UpdateContrast(r: Recipe, who: string)
    ensures Update(r, map["name" := Str("")]) == Some(r.(name := Str("")))
    ensures Update(r, map["name" := Str("")]).value != Merge(r, map["name" := Str("")]) || r.name == Str("")
    ensures !SchemaValid(Update(r, map["name" := Str("")]).value)
    ensures Update(r, map["userId" := Str(who)]) == Some(r.(userId := Some(who)))
    ensures Update(r, map["userId" := Null]) == Some(r.(userId := None))
    ensures Update(r, map["userId" := Num(1.0)]) == None
  {
  }
}
