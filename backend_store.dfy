/**
 * The two store helpers beside the database search: `get_all_recipes`
 * pages through the table with OFFSET skip LIMIT limit, and `get_recipe`
 * returns the first row with the requested id or answers 404.
 *
 * The table is a sequence of rows, read in stored order.
 */
module BackendStore {
  import opened Wrappers
  import opened Recipes

  /**
   * Why a store call gives no value: no row with the id (HTTP 404,
   * "Recipe not found"), or an OFFSET or LIMIT the database refuses because
   * it is negative (PostgreSQL checks OFFSET first).
   */
  datatype StoreError = NotFound | NegativeOffset | NegativeLimit

  /** The number of rows on the page: none past the end, otherwise at most limit. */
  function PageLength(total: nat, skip: nat, limit: nat): nat {
    if skip >= total then 0 else if limit < total - skip then limit else total - skip
  }

  /** `db.query(RecipeDB).offset(skip).limit(limit).all()` */
  function GetAllRecipes(db: seq<Recipe>, skip: int, limit: int): (r: Result<seq<Recipe>, StoreError>)
    ensures r == Err(NegativeOffset) <==> skip < 0
    ensures r == Err(NegativeLimit) <==> skip >= 0 && limit < 0
    ensures r.Ok? <==> skip >= 0 && limit >= 0
    ensures r.Ok? ==> |r.value| == PageLength(|db|, skip, limit)
    ensures r.Ok? ==> forall i :: 0 <= i < |r.value| ==> r.value[i] == db[skip + i]
  {
    if skip < 0 then Err(NegativeOffset)
    else if limit < 0 then Err(NegativeLimit)
    else
      var start := if skip < |db| then skip else |db|;
      var end := if limit < |db| - start then start + limit else |db|;
      Ok(db[start..end])
  }

  /** Consecutive pages put together are the page covering both. */
  lemma PagesConcatenate(db: seq<Recipe>, skip: nat, a: nat, b: nat)
    ensures GetAllRecipes(db, skip, a).value + GetAllRecipes(db, skip + a, b).value
         == GetAllRecipes(db, skip, a + b).value
  {
    var p, p', whole := GetAllRecipes(db, skip, a).value, GetAllRecipes(db, skip + a, b).value,
                        GetAllRecipes(db, skip, a + b).value;
    assert |p + p'| == |whole|;
    forall i | 0 <= i < |whole| ensures (p + p')[i] == whole[i] {
      if i >= |p| {
        assert (p + p')[i] == p'[i - |p|];
      }
    }
  }

  /** With the default skip = 0 and limit = 100, a table of at most 100 rows is returned whole. */
  lemma DefaultPageIsAll(db: seq<Recipe>)
    requires |db| <= 100
    ensures GetAllRecipes(db, 0, 100) == Ok(db)
  {
    assert db[0..|db|] == db;
  }

  /** `db.query(RecipeDB).filter(RecipeDB.id == recipe_id).first()`, or 404 when there is none. */
  function GetRecipe(db: seq<Recipe>, recipeId: int): (r: Result<Recipe, StoreError>)
    ensures r.Err? <==> forall x :: x in db ==> x.id != recipeId
    ensures r.Err? ==> r.error == NotFound
    ensures r.Ok? ==> exists i :: 0 <= i < |db| && db[i] == r.value && r.value.id == recipeId
                       && forall j :: 0 <= j < i ==> db[j].id != recipeId
  {
    if db == [] then Err(NotFound)
    else if db[0].id == recipeId then Ok(db[0])
    else
      var r := GetRecipe(db[1..], recipeId);
      if r.Ok? then
        var i :| 0 <= i < |db[1..]| && db[1..][i] == r.value && r.value.id == recipeId
                 && forall j :: 0 <= j < i ==> db[1..][j].id != recipeId;
        assert db[i + 1] == r.value;
        r
      else
        assert forall x :: x in db ==> x == db[0] || x in db[1..];
        r
  }

  /** Ids are a primary key: no two rows share one. */
  predicate UniqueIds(db: seq<Recipe>) {
    forall i, j :: 0 <= i < j < |db| ==> db[i].id != db[j].id
  }

  /** With unique ids, looking up a stored recipe's id returns that recipe. */
  lemma LookupStored(db: seq<Recipe>, x: Recipe)
    requires UniqueIds(db) && x in db
    ensures GetRecipe(db, x.id) == Ok(x)
  {
    var r := GetRecipe(db, x.id);
    var i :| 0 <= i < |db| && db[i] == r.value && r.value.id == x.id
             && forall j :: 0 <= j < i ==> db[j].id != x.id;
    var k :| 0 <= k < |db| && db[k] == x;
    assert !(i < k) && !(k < i);
  }

  /** Every recipe on a page can be looked up by its id, as long as ids are unique. */
  lemma PagedRecipesFound(db: seq<Recipe>, skip: int, limit: int, x: Recipe)
    requires UniqueIds(db)
    requires GetAllRecipes(db, skip, limit).Ok? && x in GetAllRecipes(db, skip, limit).value
    ensures GetRecipe(db, x.id) == Ok(x)
  {
    var p := GetAllRecipes(db, skip, limit).value;
    var i :| 0 <= i < |p| && p[i] == x;
    assert db[skip + i] == x;
    LookupStored(db, x);
  }
}
