/**
 * The database-backed search endpoints. `search_recipes` starts from the
 * whole `recipes` table and narrows the query with one filter per query
 * parameter that is present and truthy: an ANY-match of the normalised
 * ingredient tokens against the stored ingredient array, a case-insensitive
 * substring test on the title, an upper bound on the cooking time and an
 * exact difficulty. The filters are joined with AND; nothing is scored or
 * ranked, and each row is returned with its six columns unchanged.
 * `search_by_title` runs the title filter alone, without the truthiness guard.
 *
 * The table is a sequence of rows, read in stored order.
 */
module BackendSearch {
  import opened Wrappers
  import opened Text
  import opened Recipes
  import opened Subsequences

  /** The four optional query parameters of `/api/search`. */
  datatype SearchQuery = SearchQuery(
    ingredients: Option<string>,
    title: Option<string>,
    maxTime: Option<int>,
    difficulty: Option<string>)

  /** No parameter given: `/api/search` with an empty query string. */
  const NoParameters := SearchQuery(None, None, None, None)

  /** Python truthiness of an optional string: given and not empty. */
  predicate GivenText(p: Option<string>) {
    p.Some? && p.value != ""
  }

  /** Python truthiness of an optional int: given and not zero (a negative bound counts). */
  predicate GivenNumber(p: Option<int>) {
    p.Some? && p.value != 0
  }

  /** Some token is, exactly, one of the stored ingredients (`ingredients.any(t)` OR-ed over the tokens). */
  predicate AnyOf(tokens: seq<string>, stored: seq<string>) {
    exists t :: t in tokens && t in stored
  }

  /** `title ILIKE '%pattern%'`: the pattern occurs in the title, both sides lower-cased. */
  predicate TitleLike(title: string, pattern: string) {
    Contains(Lower(title), Lower(pattern))
  }

  /**
   * Which rows the endpoint returns, stated on the parameters: every truthy
   * parameter must be met, and the others impose nothing.
   */
  predicate Keep(q: SearchQuery, r: Recipe) {
    && (GivenText(q.ingredients) ==> AnyOf(Tokens(q.ingredients.value), r.ingredients))
    && (GivenText(q.title) ==> TitleLike(r.title, q.title.value))
    && (GivenNumber(q.maxTime) ==> r.cookingTime <= q.maxTime.value)
    && (GivenText(q.difficulty) ==> r.difficulty == Lower(q.difficulty.value))
  }

  /** The rows of the table Keep accepts, in table order. */
  function Filter(db: seq<Recipe>, q: SearchQuery): seq<Recipe> {
    if db == [] then []
    else Filter(db[..|db| - 1], q) + (if Keep(q, db[|db| - 1]) then [db[|db| - 1]] else [])
  }

  // ---------------------------------------------------------------------
  // The query as the endpoint builds it.
  // ---------------------------------------------------------------------

  /** One `.filter(...)` added to the SQLAlchemy query, with the values the endpoint computed. */
  datatype Criterion =
    | IngredientAny(tokens: seq<string>)
    | TitleMatches(pattern: string)
    | TimeAtMost(bound: int)
    | DifficultyIs(value: string)

  /** What the database checks for one filter. */
  predicate Holds(c: Criterion, r: Recipe) {
    match c
    case IngredientAny(tokens) => AnyOf(tokens, r.ingredients)
    case TitleMatches(pattern) => TitleLike(r.title, pattern)
    case TimeAtMost(bound) => r.cookingTime <= bound
    case DifficultyIs(value) => r.difficulty == value
  }

  /** A row passes every filter of the query. */
  predicate HoldsAll(query: seq<Criterion>, r: Recipe) {
    forall k :: 0 <= k < |query| ==> Holds(query[k], r)
  }

  /** `query.all()`: the rows passing every filter, in table order. */
  function Select(db: seq<Recipe>, query: seq<Criterion>): seq<Recipe> {
    if db == [] then []
    else Select(db[..|db| - 1], query) + (if HoldsAll(query, db[|db| - 1]) then [db[|db| - 1]] else [])
  }

  /** `search_recipes`: build the query parameter by parameter, run it, and copy out the rows. */
  method SearchRecipes(db: seq<Recipe>, q: SearchQuery) returns (results: seq<Recipe>)
    ensures results == Filter(db, q)
  {
    var query: seq<Criterion> := [];
    if GivenText(q.ingredients) {
      var userIngredients := Tokens(q.ingredients.value);
      var conditions: seq<string> := [];
      for i := 0 to |userIngredients|
        invariant conditions == userIngredients[..i]
      {
        conditions := conditions + [userIngredients[i]];
      }
      assert conditions == userIngredients[..|userIngredients|] == userIngredients;
      if conditions != [] {
        query := query + [IngredientAny(conditions)];
      }
    }
    ghost var afterIngredients := query;
    if GivenText(q.title) {
      var titleLower := Lower(q.title.value);
      query := query + [TitleMatches(titleLower)];
    }
    ghost var afterTitle := query;
    if GivenNumber(q.maxTime) {
      query := query + [TimeAtMost(q.maxTime.value)];
    }
    ghost var afterTime := query;
    if GivenText(q.difficulty) {
      query := query + [DifficultyIs(Lower(q.difficulty.value))];
    }
    assert afterIngredients == (if GivenText(q.ingredients) then [IngredientAny(Tokens(q.ingredients.value))] else []);
    assert afterTitle == afterIngredients + (if GivenText(q.title) then [TitleMatches(Lower(q.title.value))] else []);
    assert afterTime == afterTitle + (if GivenNumber(q.maxTime) then [TimeAtMost(q.maxTime.value)] else []);
    assert query == afterTime + (if GivenText(q.difficulty) then [DifficultyIs(Lower(q.difficulty.value))] else []);
    QueryMeansKeep(q, query);
    SelectIsFilter(db, query, q);
    var recipes := Select(db, query);
    results := CopyRows(recipes);
  }

  /** `search_by_title`: the title filter alone, applied even to an empty part. */
  method SearchByTitle(db: seq<Recipe>, titlePart: string) returns (results: seq<Recipe>)
    ensures results == Filter(db, NoParameters.(title := Some(titlePart)))
  {
    SearchByTitleAgrees(db, titlePart);
    var recipes := Select(db, [TitleMatches(titlePart)]);
    results := CopyRows(recipes);
  }

  /** The result loop: one record per row, with its six columns copied unchanged. */
  method CopyRows(rows: seq<Recipe>) returns (results: seq<Recipe>)
    ensures results == rows
  {
    results := [];
    for i := 0 to |rows|
      invariant results == rows[..i]
    {
      var recipe := rows[i];
      results := results + [Recipe(recipe.id, recipe.title, recipe.ingredients,
                                   recipe.instructions, recipe.cookingTime, recipe.difficulty)];
    }
  }

  /**
   * The filters the endpoint adds mean exactly Keep. The title filter is
   * lower-cased twice (by Python, then by ILIKE), which changes nothing.
   */
  lemma QueryMeansKeep(q: SearchQuery, query: seq<Criterion>)
    requires query == (if GivenText(q.ingredients) then [IngredientAny(Tokens(q.ingredients.value))] else [])
                    + (if GivenText(q.title) then [TitleMatches(Lower(q.title.value))] else [])
                    + (if GivenNumber(q.maxTime) then [TimeAtMost(q.maxTime.value)] else [])
                    + (if GivenText(q.difficulty) then [DifficultyIs(Lower(q.difficulty.value))] else [])
    ensures forall r :: HoldsAll(query, r) <==> Keep(q, r)
  {
    if GivenText(q.title) {
      LowerIdempotent(q.title.value);
    }
    forall r ensures HoldsAll(query, r) <==> Keep(q, r) {
      if GivenText(q.ingredients) {
        assert IngredientAny(Tokens(q.ingredients.value)) in query;
      }
      if GivenText(q.title) {
        assert TitleMatches(Lower(q.title.value)) in query;
      }
      if GivenNumber(q.maxTime) {
        assert TimeAtMost(q.maxTime.value) in query;
      }
      if GivenText(q.difficulty) {
        assert DifficultyIs(Lower(q.difficulty.value)) in query;
      }
    }
  }

  /** Running a query whose filters mean Keep returns Filter. */
  lemma {:induction false} SelectIsFilter(db: seq<Recipe>, query: seq<Criterion>, q: SearchQuery)
    requires forall r :: HoldsAll(query, r) <==> Keep(q, r)
    ensures Select(db, query) == Filter(db, q)
    decreases |db|
  {
    if db != [] {
      SelectIsFilter(db[..|db| - 1], query, q);
    }
  }

  // ---------------------------------------------------------------------
  // What the endpoints promise.
  // ---------------------------------------------------------------------

  /** Filtering splits over a concatenation of row lists. */
  lemma {:induction false} FilterAppend(a: seq<Recipe>, b: seq<Recipe>, q: SearchQuery)
    ensures Filter(a + b, q) == Filter(a, q) + Filter(b, q)
    decreases |b|
  {
    if b == [] {
      assert a + b == a;
    } else {
      var b' := b[..|b| - 1];
      assert (a + b)[..|a + b| - 1] == a + b';
      FilterAppend(a, b', q);
    }
  }

  /** A row is returned exactly when it is stored and meets every truthy parameter. */
  lemma {:induction false} FilterMembers(db: seq<Recipe>, q: SearchQuery)
    ensures forall r :: r in Filter(db, q) <==> r in db && Keep(q, r)
    decreases |db|
  {
    if db != [] {
      var db', last := db[..|db| - 1], db[|db| - 1];
      FilterMembers(db', q);
      assert db == db' + [last];
    }
  }

  /** The rows come back in table order, with no ranking, and no more of them than are stored. */
  lemma {:induction false} FilterInOrder(db: seq<Recipe>, q: SearchQuery)
    ensures IsSubsequence(Filter(db, q), db)
    ensures |Filter(db, q)| <= |db|
    decreases |db|
  {
    if db != [] {
      var db', last := db[..|db| - 1], db[|db| - 1];
      FilterInOrder(db', q);
      var f := Filter(db, q);
      if Keep(q, last) {
        assert f[..|f| - 1] == Filter(db', q);
        assert f[|f| - 1] == last;
      } else {
        assert f == Filter(db', q);
      }
    }
    SubsequenceBounds(Filter(db, q), db);
  }

  /** With no parameter every stored recipe is returned, in table order. */
  lemma {:induction false} NoParametersReturnsAll(db: seq<Recipe>)
    ensures Filter(db, NoParameters) == db
    decreases |db|
  {
    if db != [] {
      NoParametersReturnsAll(db[..|db| - 1]);
    }
  }

  /** Rows that one query keeps whenever another does come out as a subsequence of the other's result. */
  lemma {:induction false} FilterNarrows(db: seq<Recipe>, q: SearchQuery, q': SearchQuery)
    requires forall r :: Keep(q, r) ==> Keep(q', r)
    ensures IsSubsequence(Filter(db, q), Filter(db, q'))
    decreases |db|
  {
    if db != [] {
      var db', last := db[..|db| - 1], db[|db| - 1];
      FilterNarrows(db', q, q');
      var f, f' := Filter(db, q), Filter(db, q');
      if Keep(q, last) {
        assert f[..|f| - 1] == Filter(db', q);
        assert f'[..|f'| - 1] == Filter(db', q');
        assert f[|f| - 1] == last == f'[|f'| - 1];
      } else if Keep(q', last) {
        assert f'[..|f'| - 1] == Filter(db', q');
        assert f == Filter(db', q);
        assert IsSubsequence(f, f'[..|f'| - 1]);
      } else {
        assert f == Filter(db', q);
        assert f' == Filter(db', q');
      }
    }
  }

  /** Giving one more parameter can only drop rows: each parameter narrows the result. */
  lemma ParametersNarrow(db: seq<Recipe>, q: SearchQuery)
    ensures IsSubsequence(Filter(db, q), Filter(db, q.(ingredients := None)))
    ensures IsSubsequence(Filter(db, q), Filter(db, q.(title := None)))
    ensures IsSubsequence(Filter(db, q), Filter(db, q.(maxTime := None)))
    ensures IsSubsequence(Filter(db, q), Filter(db, q.(difficulty := None)))
  {
    FilterNarrows(db, q, q.(ingredients := None));
    FilterNarrows(db, q, q.(title := None));
    FilterNarrows(db, q, q.(maxTime := None));
    FilterNarrows(db, q, q.(difficulty := None));
  }

  /** Two queries that keep the same rows return the same result. */
  lemma {:induction false} FilterSameKeep(db: seq<Recipe>, q: SearchQuery, q': SearchQuery)
    requires forall r :: Keep(q, r) <==> Keep(q', r)
    ensures Filter(db, q) == Filter(db, q')
    decreases |db|
  {
    if db != [] {
      FilterSameKeep(db[..|db| - 1], q, q');
    }
  }

  /** An empty string, and max_time = 0, are falsy: they filter nothing, as if the parameter were absent. */
  lemma FalsyParametersIgnored(db: seq<Recipe>, q: SearchQuery)
    ensures Filter(db, q.(ingredients := Some(""))) == Filter(db, q.(ingredients := None))
    ensures Filter(db, q.(title := Some(""))) == Filter(db, q.(title := None))
    ensures Filter(db, q.(maxTime := Some(0))) == Filter(db, q.(maxTime := None))
    ensures Filter(db, q.(difficulty := Some(""))) == Filter(db, q.(difficulty := None))
  {
    FilterSameKeep(db, q.(ingredients := Some("")), q.(ingredients := None));
    FilterSameKeep(db, q.(title := Some("")), q.(title := None));
    FilterSameKeep(db, q.(maxTime := Some(0)), q.(maxTime := None));
    FilterSameKeep(db, q.(difficulty := Some("")), q.(difficulty := None));
  }

  /** Two queries whose conditions are joined with AND: running one after the other. */
  lemma {:induction false} FilterConjunction(db: seq<Recipe>, q: SearchQuery, q1: SearchQuery, q2: SearchQuery)
    requires forall r :: Keep(q, r) <==> Keep(q1, r) && Keep(q2, r)
    ensures Filter(db, q) == Filter(Filter(db, q1), q2)
    decreases |db|
  {
    if db != [] {
      var db', last := db[..|db| - 1], db[|db| - 1];
      FilterConjunction(db', q, q1, q2);
      FilterAppend(Filter(db', q1), if Keep(q1, last) then [last] else [], q2);
      if Keep(q1, last) {
        assert Filter([last], q2) == Filter([], q2) + (if Keep(q2, last) then [last] else []);
      }
    }
  }

  /** The query with only its ingredient parameter, and so on. */
  function OnlyIngredients(q: SearchQuery): SearchQuery { NoParameters.(ingredients := q.ingredients) }
  function OnlyTitle(q: SearchQuery): SearchQuery { NoParameters.(title := q.title) }
  function OnlyMaxTime(q: SearchQuery): SearchQuery { NoParameters.(maxTime := q.maxTime) }
  function OnlyDifficulty(q: SearchQuery): SearchQuery { NoParameters.(difficulty := q.difficulty) }

  /**
   * The search is the four single-parameter searches run one after another,
   * in either order: the filters are conjunctive and independent of the order
   * they are added in.
   */
  lemma SearchIsConjunction(db: seq<Recipe>, q: SearchQuery)
    ensures Filter(db, q)
         == Filter(Filter(Filter(Filter(db, OnlyIngredients(q)), OnlyTitle(q)), OnlyMaxTime(q)), OnlyDifficulty(q))
    ensures Filter(db, q)
         == Filter(Filter(Filter(Filter(db, OnlyDifficulty(q)), OnlyMaxTime(q)), OnlyTitle(q)), OnlyIngredients(q))
  {
    var qit := NoParameters.(ingredients := q.ingredients, title := q.title);
    var qitm := qit.(maxTime := q.maxTime);
    FilterConjunction(db, qit, OnlyIngredients(q), OnlyTitle(q));
    FilterConjunction(db, qitm, qit, OnlyMaxTime(q));
    FilterConjunction(db, q, qitm, OnlyDifficulty(q));
    var qdm := NoParameters.(difficulty := q.difficulty, maxTime := q.maxTime);
    var qdmt := qdm.(title := q.title);
    FilterConjunction(db, qdm, OnlyDifficulty(q), OnlyMaxTime(q));
    FilterConjunction(db, qdmt, qdm, OnlyTitle(q));
    FilterConjunction(db, q, qdmt, OnlyIngredients(q));
  }

  /**
   * The ingredient parameter keeps a row exactly when some comma-separated
   * piece, stripped and lower-cased, is literally one of the stored
   * ingredients; the stored values themselves are compared as written.
   */
  lemma IngredientFilterMeaning(v: string, r: Recipe)
    requires v != ""
    ensures Keep(NoParameters.(ingredients := Some(v)), r)
        <==> exists piece :: piece in Split(v) && Normalize(piece) in r.ingredients
  {
    var pieces := Split(v);
    if exists piece :: piece in pieces && Normalize(piece) in r.ingredients {
      var piece :| piece in pieces && Normalize(piece) in r.ingredients;
      var k :| 0 <= k < |pieces| && pieces[k] == piece;
      assert Tokens(v)[k] == Normalize(piece);
    }
    if AnyOf(Tokens(v), r.ingredients) {
      var t :| t in Tokens(v) && t in r.ingredients;
      var k :| 0 <= k < |Tokens(v)| && Tokens(v)[k] == t;
      assert pieces[k] in pieces;
    }
  }

  /** The title parameter keeps a row exactly when its lower-cased text occurs in the lower-cased title. */
  lemma TitleFilterMeaning(t: string, r: Recipe)
    requires t != ""
    ensures Keep(NoParameters.(title := Some(t)), r) <==> exists i :: OccursAt(Lower(r.title), Lower(t), i)
  {
    ContainsAt(Lower(r.title), Lower(t));
  }

  /** The title test ignores case on both sides: it depends only on the lower-cased title and text. */
  lemma TitleIgnoresCase(title: string, pattern: string)
    ensures TitleLike(title, pattern) == TitleLike(Lower(title), pattern)
    ensures TitleLike(title, pattern) == TitleLike(title, Lower(pattern))
  {
    LowerIdempotent(title);
    LowerIdempotent(pattern);
  }

  /** Every string contains the empty string, so ILIKE '%%' matches every title. */
  lemma ContainsEmpty(s: string)
    ensures Contains(s, "")
  {
    assert s[..0] == "";
  }

  /**
   * `search_by_title` agrees with `/api/search?title=...` for every title
   * part, the empty one included: there ILIKE '%%' accepts every row, and
   * the falsy empty title adds no filter.
   */
  lemma SearchByTitleAgrees(db: seq<Recipe>, titlePart: string)
    ensures Select(db, [TitleMatches(titlePart)]) == Filter(db, NoParameters.(title := Some(titlePart)))
    ensures titlePart == "" ==> Select(db, [TitleMatches(titlePart)]) == db
  {
    forall r ensures HoldsAll([TitleMatches(titlePart)], r) <==> Keep(NoParameters.(title := Some(titlePart)), r) {
      assert [TitleMatches(titlePart)][0] == TitleMatches(titlePart);
      if titlePart == "" {
        ContainsEmpty(Lower(r.title));
      }
    }
    SelectIsFilter(db, [TitleMatches(titlePart)], NoParameters.(title := Some(titlePart)));
    if titlePart == "" {
      FalsyParametersIgnored(db, NoParameters);
      NoParametersReturnsAll(db);
    }
  }

  /** A stored row for the examples below. */
  function Soup(ingredients: seq<string>, difficulty: string): Recipe {
    Recipe(1, "Onion soup", ingredients, "", 20, difficulty)
  }

  /** A query that is one word already its own token looks for exactly that word. */
  lemma OneWordQuery(w: string)
    requires w != "" && ',' !in w && IsStripped(w) && IsLower(w)
    ensures Tokens(w) == [w]
  {
    LowerWordIsToken(w);
    TokensOfJoin([w]);
  }

  /** A one-piece query with a space in front is the lower-cased rest. */
  lemma PaddedWordQuery(q: string, w: string)
    requires q == " " + w && w != [] && ',' !in q && IsStripped(w)
    ensures Tokens(q) == [Lower(w)]
  {
    SplitJoin([q]);
    assert q[1..] == w;
    StripStripped(w);
  }

  /** Query tokens are stripped and lower-cased: " ONION" finds a stored "onion". */
  lemma QueryTokensNormalized(q: string)
    requires q == " ONION"
    ensures Keep(NoParameters.(ingredients := Some(q)), Soup(["onion"], "easy"))
  {
    PaddedWordQuery(q, "ONION");
    assert Lower("ONION") == "onion";
    assert "onion" in Soup(["onion"], "easy").ingredients;
  }

  /** Stored ingredients are compared as written: "onion" finds neither "Onion" nor " onion". */
  lemma StoredIngredientsNotNormalized(q: string)
    requires q == "onion"
    ensures !Keep(NoParameters.(ingredients := Some(q)), Soup(["Onion"], "easy"))
    ensures !Keep(NoParameters.(ingredients := Some(q)), Soup([" onion"], "easy"))
  {
    OneWordQuery(q);
    assert q != "Onion" by {
      assert q[0] != "Onion"[0];
    }
    assert q != " onion" by {
      assert |q| != |" onion"|;
    }
  }

  /** An empty comma piece stays a token, so "rice," also finds a row storing an empty ingredient. */
  lemma EmptyTokenMatches(q: string)
    requires q == "rice,"
    ensures Tokens(q) == ["rice", ""]
    ensures Keep(NoParameters.(ingredients := Some(q)), Soup(["", "salt"], "easy"))
  {
    LowerWordIsToken("rice");
    LowerWordIsToken("");
    TokensOfJoin(["rice", ""]);
    assert Join(["rice", ""]) == q;
    assert "" in Soup(["", "salt"], "easy").ingredients;
  }

  /** The difficulty text is lower-cased, the stored value is not: "EASY" finds "easy" but not "Easy". */
  lemma DifficultyLowerCasedOnce(d: string)
    requires d == "EASY"
    ensures Keep(NoParameters.(difficulty := Some(d)), Soup([], "easy"))
    ensures !Keep(NoParameters.(difficulty := Some(d)), Soup([], "Easy"))
  {
    assert Lower(d) == "easy";
  }
}
