# CookWizard recipe search, modelled in Dafny

CookWizard is a recipe service with two versions of recipe search. This project models both, and the store helpers that sit beside the second.

- **Ranked in-memory search** (`main.py`, `search_recipes`).
  - The query string is split on commas. Each piece is stripped and lower-cased.
  - Every recipe of the in-file store `fake_recipes_db` gets a `match_score`. The score is the number of query tokens among its lower-cased ingredients.
  - Recipes scoring zero are dropped.
  - The rest are sorted by score, highest first. The sort is stable, so ties keep store order.
- **Filter-pipeline search** (`backend/main.py`, `search_recipes` and `search_by_title`).
  - Every query parameter that is present and truthy adds one filter to the database query:
    - an ANY-match of the ingredient tokens against the stored ingredient array;
    - a case-insensitive substring test on the title;
    - `cooking_time <= max_time`;
    - exact equality with the lower-cased difficulty.
  - The filters are joined with AND. Matching rows are copied out with their six columns.
  - Nothing is scored or ranked.
- **Store helpers** (`backend/main.py`).
  - `get_all_recipes` returns an OFFSET/LIMIT page.
  - `get_recipe` returns the first row with an id, or "not found".

## Files

- `wrappers.dfy`: `Option` and `Result`.
- `text.dfy` (module `Text`): Python's `str.split(",")`, `str.strip()` and `str.lower()`. Also `Join`, the comma join that undoes `Split`, the token normalisation `i.strip().lower()`, and the substring test behind `ILIKE '%…%'`.
- `recipes.dfy`: the `Recipe` record with the six columns of the `recipes` table, and the store `fake_recipes_db`.
- `subsequences.dfy`: order-preserving selection, used to state "results come in store order".

### `ranked_search.dfy`

This file models `main.py`'s `search_recipes` as it is written.

- A loop scores and appends the matches.
- The list goes into an array, and an in-place insertion sort orders it.
- The sort is proved equal to a functional stable descending sort `SortDesc`.
- A uniqueness lemma shows that any stable descending sort gives the same list. So the result does not depend on Python's choice of Timsort.

### `backend_search.dfy`

This file models the database search as it is written.

- The SQLAlchemy query is a list of `Criterion` values. It is extended parameter by parameter under the same truthiness guards.
- It is run by `Select`.
- It is proved equal to the reference `Filter`, which states the meaning on the parameters through `Keep`.

### `backend_store.dfy`

`get_all_recipes` and `get_recipe`, as functions with an error result.

The database table is modelled as a sequence of rows, read in stored order. Both search and paging run over that order.

## Model

| member | source | states |
|---|---|---|
| Text.Lower | main.py:49 | Python's `str.lower()`. It has no contract of its own; LowerIsLower, LowerIdempotent and LowerKeepsStripped state its meaning |
| Text.Strip | main.py:44 | Python's `str.strip()`. It has no contract of its own; StripStartSuffix, StripEndPrefix, StripIsInfix, StripStripped and StripIdempotent state its meaning |
| Text.Normalize | main.py:44 | `i.strip().lower()`. It has no contract of its own; NormalizeIdempotent and LowerWordIsToken state its meaning |
| Text.LowerChar | main.py:44 | lower-casing maps every upper-case letter of the modelled ranges (ASCII A–Z, Latin-1 U+00C0–U+00DE except U+00D7, Cyrillic U+0400–U+042F) to a non-upper-case one, leaves other characters alone and never turns whitespace into non-whitespace or back |
| Text.LowerIsLower | main.py:49 | `lower()` yields a string with no upper-case letter, and leaves such a string unchanged |
| Text.LowerIdempotent | backend/main.py:57-58 | lower-casing twice is lower-casing once (the title is lowered by Python and again by ILIKE) |
| Text.StripStartSuffix | main.py:44 | lstrip keeps a suffix after a whitespace-only prefix, and that suffix does not start with whitespace |
| Text.StripEndPrefix | main.py:44 | rstrip keeps a prefix before a whitespace-only suffix, and that prefix does not end with whitespace |
| Text.StripIsInfix | main.py:44 | `strip()` returns the infix between a whitespace-only prefix and suffix, with no whitespace at either end |
| Text.StripStripped | main.py:44 | a string with no whitespace at its ends is unchanged by `strip()` |
| Text.StripIdempotent | main.py:44 | stripping twice is stripping once |
| Text.LowerKeepsStripped | main.py:44 | lower-casing a stripped string leaves it stripped |
| Text.Split | main.py:44 | `split(",")` returns at least one piece, and no piece contains a comma |
| Text.JoinSplit | main.py:44 | joining the pieces of a split with commas gives the string back |
| Text.SplitJoin | main.py:44 | splitting a join of comma-free pieces gives the pieces back, empty pieces included |
| Text.NormalizeIdempotent | main.py:44 | a normalised token is stripped and lower-case, so normalising it again changes nothing |
| Text.Tokens | backend/main.py:48 | a query yields at least one token, so the `if conditions:` guard always holds once `ingredients` is truthy |
| Text.LowerWordIsToken | main.py:44 | a stripped lower-case word is its own token |
| Text.TokensOfJoin | main.py:44 | a comma-joined list of words that are their own tokens tokenises back to that list |
| Text.ContainsAt | backend/main.py:58 | the substring test holds exactly when the text occurs at some position |
| RankedSearch.LowerAll | main.py:49 | the stored ingredients, each lower-cased. It has no contract of its own; LowerAllElements and StoredIngredientsOnlyLowered state its meaning |
| RankedSearch.QueryTokens | main.py:44-50 | `set(user_ingredients)`. It has no contract of its own; QueryTokensElements, QueryIgnoresOrderAndRepeats and EmptyPiecesKept state its meaning |
| RankedSearch.Matches | main.py:50 | `set(user_ingredients) & set(recipe_ingredients)`. It has no contract of its own; CandidatesSound, CandidatesComplete and ScoreIgnoresOrderAndRepeats state its meaning |
| RankedSearch.MatchScore | main.py:53 | `len(matches)`. It has no contract of its own; ScoreIgnoresOrderAndRepeats and CandidatesSound state its meaning |
| RankedSearch.Candidates | main.py:46-54 | the list the scoring loop builds. It has no contract of its own; CandidatesSound, CandidatesComplete and CandidatesInOrder state its meaning, and ScoreRecipes is proved equal to it |
| RankedSearch.SortDesc | main.py:57 | the stable descending sort. It has no contract of its own; SortDescPermutes, SortDescSorted, SortDescStable and StableSortUnique state its meaning, and SortByScoreDesc is proved equal to it |
| RankedSearch.Search | main.py:42-58 | the endpoint's result. It has no contract of its own; SearchMembers, SearchSorted, SearchStable, SearchPermutes and SearchIsTheStableSort state its meaning, and SearchRecipes is proved equal to it |
| RankedSearch.SearchRecipes | main.py:42-58 | the endpoint's result equals `Search`: the stable descending sort of the scored matches |
| RankedSearch.ScoreRecipes | main.py:46-54 | the scoring loop builds, in store order, a scored copy of exactly the recipes with a non-empty intersection |
| RankedSearch.SortByScoreDesc | main.py:57 | the in-place sort leaves the array equal to the stable descending sort of its old contents |
| RankedSearch.InsertAt | main.py:57 | one insertion step moves entry i left past the trailing entries of the prefix with a lower score, so the new prefix is `Insert` of the old prefix and that entry, and leaves the rest of the array alone |
| RankedSearch.ToBuffer | main.py:46 | the results list as a fresh array with the same contents |
| RankedSearch.InsertPermutes | main.py:57 | an insertion step adds the entry and nothing else (as a multiset) |
| RankedSearch.InsertSorted | main.py:57 | inserting into a list sorted by descending score keeps it sorted |
| RankedSearch.InsertWithScore | main.py:57 | insertion puts the entry behind all entries of its own score and reorders no score class |
| RankedSearch.SortDescPermutes | main.py:57 | the sort is a permutation |
| RankedSearch.SortDescSorted | main.py:57 | the sort orders by non-increasing score |
| RankedSearch.SortDescStable | main.py:57 | the sort is stable: the entries of every score keep their relative order |
| RankedSearch.StableSortUnique | main.py:57 | two lists sorted by descending score with the same entries of each score in the same order are equal |
| RankedSearch.ScoreIgnoresOrderAndRepeats | main.py:49-53 | the score depends only on the set of stored ingredients, not their order or repeats |
| RankedSearch.QueryTokensElements | main.py:44 | the query-token set is the set of normalised comma pieces |
| RankedSearch.QueryIgnoresOrderAndRepeats | main.py:44 | the query-token set depends only on the set of comma pieces |
| RankedSearch.CandidatesSound | main.py:50-54 | every kept entry is a stored recipe, copied unchanged, whose score is the intersection size and at least 1 |
| RankedSearch.CandidatesComplete | main.py:50-54 | every stored recipe with a non-empty intersection is kept with its score |
| RankedSearch.CandidatesInOrder | main.py:48-54 | the kept recipes are a subsequence of the store, in store order |
| RankedSearch.SearchMembers | main.py:48-57 | a recipe is in the result, with its score, exactly when its lower-cased ingredients share a token with the query; every score is at least 1 |
| RankedSearch.SearchSorted | main.py:57 | the result is ordered by `match_score`, non-increasing |
| RankedSearch.SearchStable | main.py:48-57 | for every score, the result's entries with that score are in scoring-loop order, and their recipes are a subsequence of the store: equal scores keep store order |
| RankedSearch.SearchPermutes | main.py:46-57 | the result is a permutation of the filtered subsequence, so it is no longer than the store |
| RankedSearch.SearchIsTheStableSort | main.py:57 | any stable descending sort of the matches gives this exact result |
| RankedSearch.EmptyPiecesKept | main.py:44 | empty comma pieces become the empty token: "a," gives ["a", ""] and "a, " gives {"a", ""} |
| RankedSearch.StoredIngredientsOnlyLowered | main.py:49 | stored ingredients are lower-cased but not stripped: "LIME" matches "lime", " lime" does not |
| RankedSearch.FixtureQueryTokens | main.py:44 | "картошка,лук" is the token set {"картошка", "лук"} |
| RankedSearch.FixtureIngredientsLower | main.py:20-37 | the store's ingredients are already lower-case |
| RankedSearch.FixtureMatches | main.py:20-37 | recipe 1 contains both query words, recipe 2 neither |
| RankedSearch.FixtureExample | main.py:20-58 | "картошка,лук" on the store returns exactly recipe 1 with score 2 |
| BackendSearch.Holds | backend/main.py:51-62 | what the database checks for each of the four `.filter` criteria. It has no contract of its own; QueryMeansKeep states its meaning |
| BackendSearch.Select | backend/main.py:63 | `query.all()`. It has no contract of its own; SelectIsFilter states its meaning |
| BackendSearch.Keep | backend/main.py:47-62 | the criteria's meaning, stated on the parameters. It has no contract of its own; QueryMeansKeep, IngredientFilterMeaning, TitleFilterMeaning and FalsyParametersIgnored state its meaning |
| BackendSearch.Filter | backend/main.py:45-63 | the rows Keep accepts, in table order. It has no contract of its own; FilterMembers, FilterInOrder, NoParametersReturnsAll, FilterConjunction and SearchIsConjunction state its meaning |
| BackendSearch.SearchRecipes | backend/main.py:35-76 | the endpoint, building the query step by step and copying rows out, returns exactly `Filter` of its parameters |
| BackendSearch.SearchByTitle | backend/main.py:79-100 | the title endpoint, running the single unguarded ILIKE filter, returns exactly the title-only search's result for every part, the empty one included |
| BackendSearch.CopyRows | backend/main.py:64-73 | every result record has the row's six columns, copied unchanged, in row order |
| BackendSearch.QueryMeansKeep | backend/main.py:47-62 | the filters added under the truthiness guards accept a row exactly when `Keep` does |
| BackendSearch.SelectIsFilter | backend/main.py:63 | running a query whose filters mean `Keep` returns `Filter` |
| BackendSearch.FilterMembers | backend/main.py:45-63 | a row is returned exactly when it is stored and meets every truthy parameter |
| BackendSearch.FilterInOrder | backend/main.py:63-76 | results come in table order with no ranking, and no more than the table holds |
| BackendSearch.NoParametersReturnsAll | backend/main.py:45-63 | with no parameter every stored recipe is returned |
| BackendSearch.FilterNarrows | backend/main.py:45-63 | a query that keeps fewer rows returns a subsequence of the other's result |
| BackendSearch.ParametersNarrow | backend/main.py:47-62 | adding any one parameter can only drop rows |
| BackendSearch.FalsyParametersIgnored | backend/main.py:47-62 | an empty string and `max_time = 0` apply no filter, exactly as an absent parameter |
| BackendSearch.FilterConjunction | backend/main.py:45-63 | a query whose condition is the AND of two others equals running them one after the other |
| BackendSearch.SearchIsConjunction | backend/main.py:47-62 | the search is the four single-parameter searches chained, in either order |
| BackendSearch.IngredientFilterMeaning | backend/main.py:47-54 | a row passes the ingredient filter exactly when some stripped, lower-cased comma piece is literally one of its stored ingredients |
| BackendSearch.TitleFilterMeaning | backend/main.py:56-58 | a row passes the title filter exactly when the lower-cased text occurs in its lower-cased title |
| BackendSearch.TitleIgnoresCase | backend/main.py:57-58 | the title test is unchanged by lower-casing either the title or the text first |
| BackendSearch.ContainsEmpty | backend/main.py:86 | the empty pattern `%%` matches every title |
| BackendSearch.SearchByTitleAgrees | backend/main.py:56-58 | the title endpoint agrees with the search's title parameter for every part, and the empty part returns every row |
| BackendSearch.OneWordQuery | backend/main.py:48 | a query that is a single stripped lower-case word looks for exactly that word |
| BackendSearch.PaddedWordQuery | backend/main.py:48 | a one-piece query with a leading space looks for the lower-cased rest |
| BackendSearch.QueryTokensNormalized | backend/main.py:48-51 | " ONION" finds a stored "onion" |
| BackendSearch.StoredIngredientsNotNormalized | backend/main.py:51 | "onion" finds neither a stored "Onion" nor " onion": stored values are compared as written |
| BackendSearch.EmptyTokenMatches | backend/main.py:48-51 | "rice," yields the tokens ["rice", ""] and so finds a row storing an empty ingredient |
| BackendSearch.DifficultyLowerCasedOnce | backend/main.py:61-62 | "EASY" finds "easy" but not a stored "Easy" |
| BackendStore.GetAllRecipes | backend/main.py:103-106 | a negative offset, then a negative limit, is an error, and a request with both non-negative always succeeds; its page has `min(limit, total - skip)` rows (none past the end), and row i is stored row skip + i |
| BackendStore.PagesConcatenate | backend/main.py:103-106 | consecutive pages put together are the page covering both |
| BackendStore.DefaultPageIsAll | backend/main.py:104 | with the defaults skip = 0 and limit = 100, a table of at most 100 rows is returned whole |
| BackendStore.GetRecipe | backend/main.py:109-114 | not found exactly when no row has the id; otherwise the first row with that id |
| BackendStore.LookupStored | backend/main.py:109-114 | with unique ids (the primary key), looking up a stored recipe's id returns it |
| BackendStore.PagedRecipesFound | backend/main.py:103-114 | every recipe on a page is found again by its id |

## Left out

- FastAPI routing, dependency injection, `print` logging, table creation and `create_recipe` (backend/main.py:1-13, 44, 75, 117-142). These are framework glue and I/O.
- Response serialisation. `main.py`'s endpoint is declared with `response_model=List[Recipe]`, and that model has no `match_score` field, so the HTTP body loses the score while keeping the order. The model returns the scored list that the function computes. `RecipesOf` gives the recipes behind it.
- The other endpoints of `main.py` (`get_all_recipes`, `get_recipe`, `health_check` and `root`). They are not part of the search.
- The LIKE wildcards `%`, `_` and `\` inside user text, and database collation. The title filter is modelled as a plain substring test on lower-cased strings.
- Database row order. There is no ORDER BY, so the table is read in a fixed stored order. No ranking is claimed.
- NULL columns. Every row has all six values and no NULL array element.
- `Text.LowerChar`: only ASCII A–Z, Latin-1 U+00C0–U+00DE (except U+00D7) and Cyrillic U+0400–U+042F are lowered. Every other character is left unchanged, including other Cyrillic capitals such as U+0462 and U+0490, and characters that lower to more than one character.
- Python's Timsort itself. The in-place sort is an insertion sort. `RankedSearch.StableSortUnique` shows that every stable descending sort gives the same result.
- Integer widths. `cooking_time`, `max_time`, `skip` and `limit` are unbounded integers, and the database's 32- and 64-bit limits are not modelled.
- The Telegram bots, the Streamlit UI (`app.py`) and database seeding (`seed_data.py`). They are I/O glue.
