/**
 * The in-memory search endpoint: every stored recipe is scored by how many
 * query tokens its lower-cased ingredients contain, recipes scoring zero are
 * dropped, and the survivors are sorted by score, highest first, with a
 * stable sort (so equal scores keep store order).
 */
module RankedSearch {
  import opened Text
  import opened Recipes
  import opened Subsequences

  /** A copy of a stored recipe with the added `match_score` field. */
  datatype ScoredRecipe = ScoredRecipe(recipe: Recipe, matchScore: int)

  /** `[i.lower() for i in recipe["ingredients"]]`: stored ingredients are lower-cased, not stripped. */
  function LowerAll(xs: seq<string>): (r: seq<string>) {
    seq(|xs|, k requires 0 <= k < |xs| => Lower(xs[k]))
  }

  /** The query-token set: `set(user_ingredients)`. */
  function QueryTokens(ingredients: string): set<string> {
    Elements(Tokens(ingredients))
  }

  /** `set(user_ingredients) & set(recipe_ingredients)` */
  function Matches(tokens: set<string>, recipe: Recipe): set<string> {
    tokens * Elements(LowerAll(recipe.ingredients))
  }

  /** `len(matches)` */
  function MatchScore(tokens: set<string>, recipe: Recipe): nat {
    |Matches(tokens, recipe)|
  }

  /** The list the scoring loop builds: in store order, the recipes with a match, each with its score. */
  function Candidates(db: seq<Recipe>, tokens: set<string>): seq<ScoredRecipe> {
    if db == [] then []
    else
      var last := db[|db| - 1];
      Candidates(db[..|db| - 1], tokens)
        + (if Matches(tokens, last) != {} then [ScoredRecipe(last, MatchScore(tokens, last))] else [])
  }

  /** The stored recipes behind a list of scored copies. */
  function RecipesOf(s: seq<ScoredRecipe>): (r: seq<Recipe>)
    ensures |r| == |s|
    ensures forall k :: 0 <= k < |s| ==> r[k] == s[k].recipe
  {
    if s == [] then [] else RecipesOf(s[..|s| - 1]) + [s[|s| - 1].recipe]
  }

  /** Scores never increase along s. */
  predicate SortedByScore(s: seq<ScoredRecipe>) {
    forall i, j :: 0 <= i < j < |s| ==> s[i].matchScore >= s[j].matchScore
  }

  /** The entries of s with score k, in their order in s. */
  function WithScore(s: seq<ScoredRecipe>, k: int): seq<ScoredRecipe> {
    if s == [] then []
    else WithScore(s[..|s| - 1], k) + (if s[|s| - 1].matchScore == k then [s[|s| - 1]] else [])
  }

  /** Insert x after every entry of s whose score is at least x's. */
  function Insert(s: seq<ScoredRecipe>, x: ScoredRecipe): seq<ScoredRecipe> {
    if s == [] then [x]
    else if s[|s| - 1].matchScore >= x.matchScore then s + [x]
    else Insert(s[..|s| - 1], x) + [s[|s| - 1]]
  }

  /** `sort(key=match_score, reverse=True)`: a stable sort by descending score. */
  function SortDesc(s: seq<ScoredRecipe>): seq<ScoredRecipe> {
    if s == [] then [] else Insert(SortDesc(s[..|s| - 1]), s[|s| - 1])
  }

  /** What the endpoint returns for a query string against a store. */
  function Search(db: seq<Recipe>, ingredients: string): seq<ScoredRecipe> {
    SortDesc(Candidates(db, QueryTokens(ingredients)))
  }

  // ---------------------------------------------------------------------
  // The endpoint as written: a loop that appends, then an in-place sort.
  // ---------------------------------------------------------------------

  /** `results.sort(key=lambda x: x["match_score"], reverse=True)` on the results buffer. */
  method SortByScoreDesc(a: array<ScoredRecipe>)
    modifies a
    ensures a[..] == SortDesc(old(a[..]))
  {
    ghost var input := a[..];
    for i := 0 to a.Length
      invariant a[..i] == SortDesc(input[..i])
      invariant a[i..] == input[i..]
    {
      InsertAt(a, i);
      assert input[..i + 1][..i] == input[..i];
      assert input[..i + 1][i] == input[i];
    }
    assert input[..a.Length] == input;
  }

  /** Moves a[i] leftwards past the smaller entries of the sorted prefix a[..i]. */
  method InsertAt(a: array<ScoredRecipe>, i: nat)
    requires i < a.Length
    modifies a
    ensures a[..i + 1] == Insert(old(a[..i]), old(a[i]))
    ensures a[i + 1..] == old(a[i + 1..])
  {
    ghost var sorted := a[..i];
    var x := a[i];
    var j := i;
    while j > 0 && a[j - 1].matchScore < x.matchScore
      invariant 0 <= j <= i
      invariant a[j] == x
      invariant a[i + 1..] == old(a[i + 1..])
      invariant Insert(sorted, x) == Insert(a[..j], x) + a[j + 1..i + 1]
    {
      ghost var before := a[..];
      a[j - 1], a[j] := a[j], a[j - 1];
      InsertSwapStep(before, a[..], i, j, x);
      j := j - 1;
    }
    InsertAfterLarger(a[..j], x);
    assert a[..i + 1] == a[..j] + [x] + a[j + 1..i + 1];
  }

  /** One step of the insertion loop: swapping x in front of a smaller entry keeps the insertion it computes. */
  lemma InsertSwapStep(before: seq<ScoredRecipe>, after: seq<ScoredRecipe>, i: nat, j: nat, x: ScoredRecipe)
    requires 0 < j <= i < |before| && before[j] == x && before[j - 1].matchScore < x.matchScore
    requires after == before[j - 1 := x][j := before[j - 1]]
    ensures Insert(before[..j], x) + before[j + 1..i + 1] == Insert(after[..j - 1], x) + after[j..i + 1]
  {
    var p, y := before[..j - 1], before[j - 1];
    assert before[..j] == p + [y];
    assert (p + [y])[..|p|] == p;
    assert Insert(p + [y], x) == Insert(p, x) + [y];
    assert after[..j - 1] == p;
    assert after[j..i + 1] == [y] + before[j + 1..i + 1];
  }

  /** Where the insertion loop stops: x goes right after an entry at least as large, or first. */
  lemma InsertAfterLarger(p: seq<ScoredRecipe>, x: ScoredRecipe)
    requires p == [] || p[|p| - 1].matchScore >= x.matchScore
    ensures Insert(p, x) == p + [x]
  {
  }

  /** `search_recipes(ingredients)` over the store `db`. */
  method SearchRecipes(db: seq<Recipe>, ingredients: string) returns (results: seq<ScoredRecipe>)
    ensures results == Search(db, ingredients)
  {
    var userIngredients := Tokens(ingredients);
    var scored := ScoreRecipes(db, Elements(userIngredients));
    var buffer := ToBuffer(scored);
    SortByScoreDesc(buffer);
    results := buffer[..];
  }

  /** The scoring loop: a scored copy of every stored recipe that has a match, appended in store order. */
  method ScoreRecipes(db: seq<Recipe>, tokens: set<string>) returns (results: seq<ScoredRecipe>)
    ensures results == Candidates(db, tokens)
  {
    results := [];
    for k := 0 to |db|
      invariant results == Candidates(db[..k], tokens)
    {
      var recipe := db[k];
      var recipeIngredients := LowerAll(recipe.ingredients);
      var matches := tokens * Elements(recipeIngredients);
      if matches != {} {
        results := results + [ScoredRecipe(recipe, |matches|)];
      }
      assert db[..k + 1][..k] == db[..k];
    }
    assert db[..|db|] == db;
  }

  /** The Python list `results` as the array the in-place sort works on. */
  method ToBuffer(s: seq<ScoredRecipe>) returns (buffer: array<ScoredRecipe>)
    ensures fresh(buffer) && buffer[..] == s
  {
    buffer := new ScoredRecipe[|s|];
    for k := 0 to |s|
      invariant buffer[..k] == s[..k]
    {
      buffer[k] := s[k];
    }
  }

  // ---------------------------------------------------------------------
  // Facts about the pieces.
  // ---------------------------------------------------------------------

  /** WithScore distributes over concatenation. */
  lemma {:induction false} WithScoreAppend(a: seq<ScoredRecipe>, b: seq<ScoredRecipe>, k: int)
    ensures WithScore(a + b, k) == WithScore(a, k) + WithScore(b, k)
    decreases |b|
  {
    if b == [] {
      assert a + b == a;
    } else {
      var b' := b[..|b| - 1];
      assert (a + b)[..|a + b| - 1] == a + b';
      WithScoreAppend(a, b', k);
    }
  }

  /** WithScore keeps exactly the entries with score k. */
  lemma {:induction false} WithScoreMembers(s: seq<ScoredRecipe>, k: int)
    ensures forall e :: e in WithScore(s, k) <==> e in s && e.matchScore == k
    decreases |s|
  {
    if s != [] {
      WithScoreMembers(s[..|s| - 1], k);
      assert s == s[..|s| - 1] + [s[|s| - 1]];
    }
  }

  /** Insert adds x and nothing else. */
  lemma {:induction false} InsertPermutes(s: seq<ScoredRecipe>, x: ScoredRecipe)
    ensures multiset(Insert(s, x)) == multiset(s) + multiset{x}
    decreases |s|
  {
    if s != [] && s[|s| - 1].matchScore < x.matchScore {
      InsertPermutes(s[..|s| - 1], x);
      assert s == s[..|s| - 1] + [s[|s| - 1]];
    }
  }

  /** Insert adds x to the entries of s and no other entry. */
  lemma {:induction false} InsertMembers(s: seq<ScoredRecipe>, x: ScoredRecipe)
    ensures forall e :: e in Insert(s, x) <==> e in s || e == x
    decreases |s|
  {
    if s != [] && s[|s| - 1].matchScore < x.matchScore {
      InsertMembers(s[..|s| - 1], x);
      assert s == s[..|s| - 1] + [s[|s| - 1]];
    }
  }

  /** An entry scoring no more than every entry of a sorted list may follow it. */
  lemma AppendLeast(t: seq<ScoredRecipe>, y: ScoredRecipe)
    requires SortedByScore(t)
    requires forall e :: e in t ==> e.matchScore >= y.matchScore
    ensures SortedByScore(t + [y])
  {
    forall i, j | 0 <= i < j < |t + [y]|
      ensures (t + [y])[i].matchScore >= (t + [y])[j].matchScore
    {
      if j == |t| {
        assert (t + [y])[i] == t[i];
      }
    }
  }

  /** Insert into a sorted list keeps it sorted. */
  lemma {:induction false} InsertSorted(s: seq<ScoredRecipe>, x: ScoredRecipe)
    requires SortedByScore(s)
    ensures SortedByScore(Insert(s, x))
    decreases |s|
  {
    if s == [] {
    } else if s[|s| - 1].matchScore >= x.matchScore {
      AppendLeast(s, x);
    } else {
      var s', last := s[..|s| - 1], s[|s| - 1];
      InsertSorted(s', x);
      InsertMembers(s', x);
      forall e | e in Insert(s', x) ensures e.matchScore >= last.matchScore {
        if e != x {
          var i :| 0 <= i < |s'| && s'[i] == e;
          assert s[i] == e;
        }
      }
      AppendLeast(Insert(s', x), last);
    }
  }

  /** Insert puts x behind every entry with x's score, and moves no other score class. */
  lemma {:induction false} InsertWithScore(s: seq<ScoredRecipe>, x: ScoredRecipe, k: int)
    ensures WithScore(Insert(s, x), k) == WithScore(s, k) + (if x.matchScore == k then [x] else [])
    decreases |s|
  {
    if s == [] {
      assert WithScore([x], k) == WithScore([], k) + (if x.matchScore == k then [x] else []);
    } else if s[|s| - 1].matchScore >= x.matchScore {
      WithScoreAppend(s, [x], k);
      assert WithScore([x], k) == WithScore([], k) + (if x.matchScore == k then [x] else []);
    } else {
      var s', last := s[..|s| - 1], s[|s| - 1];
      InsertWithScore(s', x, k);
      WithScoreAppend(Insert(s', x), [last], k);
      assert WithScore([last], k) == WithScore([], k) + (if last.matchScore == k then [last] else []);
    }
  }

  /** SortDesc is a permutation. */
  lemma {:induction false} SortDescPermutes(s: seq<ScoredRecipe>)
    ensures multiset(SortDesc(s)) == multiset(s)
    decreases |s|
  {
    if s != [] {
      var s', last := s[..|s| - 1], s[|s| - 1];
      SortDescPermutes(s');
      InsertPermutes(SortDesc(s'), last);
      assert s == s' + [last];
      assert multiset(s) == multiset(s') + multiset{last};
    }
  }

  /** SortDesc orders by non-increasing score. */
  lemma {:induction false} SortDescSorted(s: seq<ScoredRecipe>)
    ensures SortedByScore(SortDesc(s))
    decreases |s|
  {
    if s != [] {
      SortDescSorted(s[..|s| - 1]);
      InsertSorted(SortDesc(s[..|s| - 1]), s[|s| - 1]);
    }
  }

  /** SortDesc is stable: the entries of each score keep their relative order. */
  lemma {:induction false} SortDescStable(s: seq<ScoredRecipe>, k: int)
    ensures WithScore(SortDesc(s), k) == WithScore(s, k)
    decreases |s|
  {
    if s != [] {
      SortDescStable(s[..|s| - 1], k);
      InsertWithScore(SortDesc(s[..|s| - 1]), s[|s| - 1], k);
    }
  }

  /** The last entry of a sorted non-empty list has the least score. */
  lemma LastIsLeast(s: seq<ScoredRecipe>, e: ScoredRecipe)
    requires SortedByScore(s) && e in s
    ensures s[|s| - 1].matchScore <= e.matchScore
  {
    var i :| 0 <= i < |s| && s[i] == e;
    if i < |s| - 1 {
      assert s[i].matchScore >= s[|s| - 1].matchScore;
    }
  }

  /** Lists with the same score classes have the same entries. */
  lemma SameMembers(a: seq<ScoredRecipe>, b: seq<ScoredRecipe>)
    requires forall k :: WithScore(a, k) == WithScore(b, k)
    ensures forall e :: e in a <==> e in b
  {
    forall e ensures e in a <==> e in b {
      WithScoreMembers(a, e.matchScore);
      WithScoreMembers(b, e.matchScore);
    }
  }

  /**
   * Two sorted lists that contain each other's last entries and agree on the
   * score class of the first one's last entry end with the same entry.
   */
  lemma SameLast(a: seq<ScoredRecipe>, b: seq<ScoredRecipe>)
    requires SortedByScore(a) && SortedByScore(b) && a != [] && b != []
    requires a[|a| - 1] in b && b[|b| - 1] in a
    requires WithScore(a, a[|a| - 1].matchScore) == WithScore(b, a[|a| - 1].matchScore)
    ensures a[|a| - 1] == b[|b| - 1]
  {
    LastIsLeast(a, b[|b| - 1]);
    LastIsLeast(b, a[|a| - 1]);
    ClassOfLast(a);
    ClassOfLast(b);
  }

  /** Appending one entry adds it to its own score class only. */
  lemma WithScoreSnoc(a: seq<ScoredRecipe>, x: ScoredRecipe, k: int)
    ensures WithScore(a + [x], k) == WithScore(a, k) + (if x.matchScore == k then [x] else [])
  {
    assert (a + [x])[..|a|] == a;
  }

  /** Dropping the same last entry from both lists keeps their score classes equal. */
  lemma DropLastKeepsClasses(a: seq<ScoredRecipe>, b: seq<ScoredRecipe>, x: ScoredRecipe)
    requires forall k :: WithScore(a + [x], k) == WithScore(b + [x], k)
    ensures forall k :: WithScore(a, k) == WithScore(b, k)
  {
    forall k ensures WithScore(a, k) == WithScore(b, k) {
      WithScoreSnoc(a, x, k);
      WithScoreSnoc(b, x, k);
      var e := if x.matchScore == k then [x] else [];
      var wa, wb := WithScore(a, k), WithScore(b, k);
      assert wa + e == wb + e;
      assert wa == (wa + e)[..|wa|];
      assert wb == (wb + e)[..|wb|];
    }
  }

  /** The score class of the last entry ends with that entry. */
  lemma ClassOfLast(b: seq<ScoredRecipe>)
    requires b != []
    ensures var c := WithScore(b, b[|b| - 1].matchScore); c != [] && c[|c| - 1] == b[|b| - 1]
  {
  }

  /**
   * A sorted list is fixed by its score classes: two lists sorted by
   * descending score whose entries of each score come in the same order are
   * equal. So every stable descending sort gives the same result.
   */
  lemma {:induction false} StableSortUnique(a: seq<ScoredRecipe>, b: seq<ScoredRecipe>)
    requires SortedByScore(a) && SortedByScore(b)
    requires forall k :: WithScore(a, k) == WithScore(b, k)
    ensures a == b
    decreases |a|
  {
    if a == [] {
      if b != [] {
        ClassOfLast(b);
      }
    } else {
      var a', b', x := StepDown(a, b);
      StableSortUnique(a', b');
    }
  }

  /** The induction step of StableSortUnique: both lists end with the same entry, and what precedes it agrees again. */
  lemma StepDown(a: seq<ScoredRecipe>, b: seq<ScoredRecipe>) returns (a': seq<ScoredRecipe>, b': seq<ScoredRecipe>, x: ScoredRecipe)
    requires SortedByScore(a) && SortedByScore(b) && a != []
    requires forall k :: WithScore(a, k) == WithScore(b, k)
    ensures a == a' + [x] && b == b' + [x] && |a'| < |a|
    ensures SortedByScore(a') && SortedByScore(b')
    ensures forall k :: WithScore(a', k) == WithScore(b', k)
  {
    SameMembers(a, b);
    a', b', x := a[..|a| - 1], b[..|b| - 1], a[|a| - 1];
    assert x in b;
    assert b[|b| - 1] in a;
    SameLast(a, b);
    assert a == a' + [x];
    assert b == b' + [x];
    DropLastKeepsClasses(a', b', x);
  }

  /** Each stored ingredient, lower-cased, as a set. */
  function LoweredSet(xs: seq<string>): set<string> {
    set x | x in xs :: Lower(x)
  }

  /** Each comma piece, normalised, as a set. */
  function NormalizedSet(pieces: seq<string>): set<string> {
    set p | p in pieces :: Normalize(p)
  }

  /** The stored ingredient set after lower-casing: each stored ingredient, lower-cased. */
  lemma {:induction false} LowerAllElements(xs: seq<string>)
    ensures Elements(LowerAll(xs)) == LoweredSet(xs)
  {
    var l := LowerAll(xs);
    forall y | y in Elements(l) ensures y in LoweredSet(xs) {
      var k :| 0 <= k < |l| && l[k] == y;
      assert xs[k] in xs;
    }
    forall y | y in LoweredSet(xs) ensures y in Elements(l) {
      var x :| x in xs && Lower(x) == y;
      var k :| 0 <= k < |xs| && xs[k] == x;
      assert l[k] == y;
    }
  }

  /**
   * The score depends only on which ingredients a recipe lists, not on their
   * order or on repeats: two recipes listing the same set score alike.
   */
  lemma ScoreIgnoresOrderAndRepeats(tokens: set<string>, r1: Recipe, r2: Recipe)
    requires Elements(r1.ingredients) == Elements(r2.ingredients)
    ensures MatchScore(tokens, r1) == MatchScore(tokens, r2)
  {
    LowerAllElements(r1.ingredients);
    LowerAllElements(r2.ingredients);
    forall y ensures y in LoweredSet(r1.ingredients) <==> y in LoweredSet(r2.ingredients) {
      if y in LoweredSet(r1.ingredients) {
        var x :| x in r1.ingredients && Lower(x) == y;
        assert x in Elements(r1.ingredients);
      }
      if y in LoweredSet(r2.ingredients) {
        var x :| x in r2.ingredients && Lower(x) == y;
        assert x in Elements(r2.ingredients);
      }
    }
    assert Elements(LowerAll(r1.ingredients)) == Elements(LowerAll(r2.ingredients));
  }

  /** A normalised list holds exactly the normalised pieces. */
  lemma NormalizeAllElements(ps: seq<string>)
    ensures Elements(NormalizeAll(ps)) == NormalizedSet(ps)
  {
    var ts := NormalizeAll(ps);
    forall t | t in Elements(ts) ensures t in NormalizedSet(ps) {
      var k :| 0 <= k < |ts| && ts[k] == t;
      assert ps[k] in ps;
    }
    forall t | t in NormalizedSet(ps) ensures t in Elements(ts) {
      var p :| p in ps && Normalize(p) == t;
      var k :| 0 <= k < |ps| && ps[k] == p;
      assert ts[k] == t;
    }
  }

  /** The query-token set: each comma piece, normalised. */
  lemma QueryTokensElements(q: string)
    ensures QueryTokens(q) == NormalizedSet(Split(q))
  {
    NormalizeAllElements(Split(q));
  }

  /** The query side likewise: only the set of comma pieces matters. */
  lemma QueryIgnoresOrderAndRepeats(q1: string, q2: string)
    requires Elements(Split(q1)) == Elements(Split(q2))
    ensures QueryTokens(q1) == QueryTokens(q2)
  {
    QueryTokensElements(q1);
    QueryTokensElements(q2);
    forall t ensures t in NormalizedSet(Split(q1)) <==> t in NormalizedSet(Split(q2)) {
      if t in NormalizedSet(Split(q1)) {
        var p :| p in Split(q1) && Normalize(p) == t;
        assert p in Elements(Split(q2));
      }
      if t in NormalizedSet(Split(q2)) {
        var p :| p in Split(q2) && Normalize(p) == t;
        assert p in Elements(Split(q1));
      }
    }
  }

  /** Every entry the scoring loop keeps is a stored recipe with its true, positive score. */
  lemma {:induction false} CandidatesSound(db: seq<Recipe>, tokens: set<string>)
    ensures forall e :: e in Candidates(db, tokens) ==>
              e.recipe in db && e.matchScore == MatchScore(tokens, e.recipe) && e.matchScore >= 1
    decreases |db|
  {
    if db != [] {
      var db', last := db[..|db| - 1], db[|db| - 1];
      CandidatesSound(db', tokens);
      assert db == db' + [last];
    }
  }

  /** Every stored recipe with a match is kept, with its score. */
  lemma {:induction false} CandidatesComplete(db: seq<Recipe>, tokens: set<string>)
    ensures forall x :: x in db && Matches(tokens, x) != {} ==>
              ScoredRecipe(x, MatchScore(tokens, x)) in Candidates(db, tokens)
    decreases |db|
  {
    if db != [] {
      var db', last := db[..|db| - 1], db[|db| - 1];
      CandidatesComplete(db', tokens);
      assert db == db' + [last];
    }
  }

  /** The kept recipes are in store order. */
  lemma {:induction false} CandidatesInOrder(db: seq<Recipe>, tokens: set<string>)
    ensures IsSubsequence(RecipesOf(Candidates(db, tokens)), db)
    decreases |db|
  {
    if db != [] {
      var db', last := db[..|db| - 1], db[|db| - 1];
      CandidatesInOrder(db', tokens);
      var c' := Candidates(db', tokens);
      var c := Candidates(db, tokens);
      if Matches(tokens, last) != {} {
        assert c[..|c| - 1] == c';
        assert RecipesOf(c)[..|c| - 1] == RecipesOf(c');
      } else {
        assert c == c';
      }
    }
  }

  /** The scoring loop keeps a recipe exactly when it has a match, with its score, in store order. */
  lemma CandidatesMembers(db: seq<Recipe>, tokens: set<string>)
    ensures forall e :: e in Candidates(db, tokens) ==>
              e.recipe in db && e.matchScore == MatchScore(tokens, e.recipe) && e.matchScore >= 1
    ensures forall x :: x in db && Matches(tokens, x) != {} ==>
              ScoredRecipe(x, MatchScore(tokens, x)) in Candidates(db, tokens)
    ensures IsSubsequence(RecipesOf(Candidates(db, tokens)), db)
  {
    CandidatesSound(db, tokens);
    CandidatesComplete(db, tokens);
    CandidatesInOrder(db, tokens);
  }

  // ---------------------------------------------------------------------
  // What the endpoint promises.
  // ---------------------------------------------------------------------

  /**
   * A recipe is in the result, with its score, exactly when its lower-cased
   * ingredients share a token with the query; every entry is an unchanged
   * stored recipe with its true score, which is at least 1.
   */
  lemma SearchMembers(db: seq<Recipe>, ingredients: string)
    ensures forall e :: e in Search(db, ingredients) ==>
              e.recipe in db && e.matchScore == MatchScore(QueryTokens(ingredients), e.recipe)
              && e.matchScore >= 1
    ensures forall x :: ScoredRecipe(x, MatchScore(QueryTokens(ingredients), x)) in Search(db, ingredients)
              <==> x in db && Matches(QueryTokens(ingredients), x) != {}
  {
    var c := Candidates(db, QueryTokens(ingredients));
    CandidatesMembers(db, QueryTokens(ingredients));
    SortDescPermutes(c);
    assert forall e :: e in Search(db, ingredients) <==> e in multiset(c);
  }

  /** The result is ordered by score, highest first. */
  lemma SearchSorted(db: seq<Recipe>, ingredients: string)
    ensures SortedByScore(Search(db, ingredients))
  {
    SortDescSorted(Candidates(db, QueryTokens(ingredients)));
  }

  /** The entries of one score are a subsequence of the list. */
  lemma {:induction false} WithScoreSubsequence(s: seq<ScoredRecipe>, k: int)
    ensures IsSubsequence(WithScore(s, k), s)
    decreases |s|
  {
    if s != [] {
      var s' := s[..|s| - 1];
      WithScoreSubsequence(s', k);
      var w := WithScore(s, k);
      if s[|s| - 1].matchScore == k {
        assert w[..|w| - 1] == WithScore(s', k);
      } else {
        assert w == WithScore(s', k);
      }
    }
  }

  /** Leaving out scored entries leaves out their recipes. */
  lemma {:induction false} RecipesOfSubsequence(a: seq<ScoredRecipe>, b: seq<ScoredRecipe>)
    requires IsSubsequence(a, b)
    ensures IsSubsequence(RecipesOf(a), RecipesOf(b))
    decreases |b|
  {
    if b != [] {
      var b' := b[..|b| - 1];
      assert RecipesOf(b)[..|b| - 1] == RecipesOf(b');
      if a != [] && a[|a| - 1] == b[|b| - 1] && IsSubsequence(a[..|a| - 1], b') {
        RecipesOfSubsequence(a[..|a| - 1], b');
        assert RecipesOf(a)[..|a| - 1] == RecipesOf(a[..|a| - 1]);
      } else {
        RecipesOfSubsequence(a, b');
      }
    }
  }

  /**
   * Ties keep store order: for each score, the entries with that score come
   * in the order the scoring loop met them, and their recipes are in the
   * store's order.
   */
  lemma SearchStable(db: seq<Recipe>, ingredients: string, k: int)
    ensures WithScore(Search(db, ingredients), k) == WithScore(Candidates(db, QueryTokens(ingredients)), k)
    ensures IsSubsequence(RecipesOf(WithScore(Search(db, ingredients), k)), db)
  {
    var c := Candidates(db, QueryTokens(ingredients));
    SortDescStable(c, k);
    CandidatesInOrder(db, QueryTokens(ingredients));
    WithScoreSubsequence(c, k);
    RecipesOfSubsequence(WithScore(c, k), c);
    SubsequenceTransitive(RecipesOf(WithScore(c, k)), RecipesOf(c), db);
  }

  /** The result is a reordering of the matching recipes, so it is no longer than the store. */
  lemma SearchPermutes(db: seq<Recipe>, ingredients: string)
    ensures multiset(Search(db, ingredients)) == multiset(Candidates(db, QueryTokens(ingredients)))
    ensures |Search(db, ingredients)| <= |db|
  {
    var c := Candidates(db, QueryTokens(ingredients));
    SortDescPermutes(c);
    CandidatesMembers(db, QueryTokens(ingredients));
    SubsequenceBounds(RecipesOf(c), db);
    assert |Search(db, ingredients)| == |multiset(c)|;
  }

  /** Whatever stable sorting algorithm is used, a stable descending sort of the matches is this result. */
  lemma SearchIsTheStableSort(db: seq<Recipe>, ingredients: string, t: seq<ScoredRecipe>)
    requires SortedByScore(t)
    requires forall k :: WithScore(t, k) == WithScore(Candidates(db, QueryTokens(ingredients)), k)
    ensures t == Search(db, ingredients)
  {
    var c := Candidates(db, QueryTokens(ingredients));
    SortDescSorted(c);
    forall k ensures WithScore(t, k) == WithScore(SortDesc(c), k) {
      SortDescStable(c, k);
    }
    StableSortUnique(t, SortDesc(c));
  }

  // ---------------------------------------------------------------------
  // The fixture and the as-written edge cases.
  // ---------------------------------------------------------------------

  /** Empty comma pieces are kept as the empty token: "a," gives {"a", ""}. */
  lemma EmptyPiecesKept()
    ensures Tokens("a,") == ["a", ""]
    ensures QueryTokens("a, ") == {"a", ""}
  {
    SplitJoin(["a", ""]);
    assert Join(["a", ""]) == "a,";
    SplitJoin(["a", " "]);
    assert Join(["a", " "]) == "a, ";
    assert Normalize("a") == "a";
    assert Normalize(" ") == "" by {
      assert StripStart(" ") == "";
    }
    assert Tokens("a, ") == ["a", ""];
  }

  /** Stored ingredients are lower-cased but not stripped. */
  lemma StoredIngredientsOnlyLowered()
    ensures MatchScore({"lime"}, Recipe(3, "Drink", ["LIME"], "", 5, "easy")) == 1
    ensures MatchScore({"lime"}, Recipe(4, "Drink", [" lime"], "", 5, "easy")) == 0
  {
    assert Lower("LIME") == "lime";
    assert LowerAll(["LIME"]) == ["lime"];
    assert Elements(["lime"]) == {"lime"};
    assert Lower(" lime") == " lime";
    assert LowerAll([" lime"]) == [" lime"];
    assert Elements([" lime"]) == {" lime"};
    assert {"lime"} * {" lime"} == {};
  }

  /** "картошка,лук" is the token set {"картошка", "лук"}. */
  lemma FixtureQueryTokens(query: string)
    requires query == "картошка,лук"
    ensures QueryTokens(query) == {"картошка", "лук"}
  {
    var words := ["картошка", "лук"];
    LowerWordIsToken(words[0]);
    LowerWordIsToken(words[1]);
    TokensOfJoin(words);
    assert Join(words) == query;
  }

  /** Lower-casing a list of lower-case ingredients changes nothing. */
  lemma LowerAllOfLower(xs: seq<string>)
    requires forall k :: 0 <= k < |xs| ==> IsLower(xs[k])
    ensures LowerAll(xs) == xs
  {
    forall k | 0 <= k < |xs| ensures LowerAll(xs)[k] == xs[k] {
      LowerIsLower(xs[k]);
    }
  }

  /** The store's ingredients are already lower-case. */
  lemma FixtureIngredientsLower()
    ensures LowerAll(FakeRecipesDb[0].ingredients) == FakeRecipesDb[0].ingredients
    ensures LowerAll(FakeRecipesDb[1].ingredients) == FakeRecipesDb[1].ingredients
  {
    LowerAllOfLower(FakeRecipesDb[0].ingredients);
    LowerAllOfLower(FakeRecipesDb[1].ingredients);
  }

  /** Of two recipes, only the first of which matches, the scoring loop keeps the first. */
  lemma CandidatesFirstOfTwo(r1: Recipe, r2: Recipe, tokens: set<string>)
    requires Matches(tokens, r1) != {} && Matches(tokens, r2) == {}
    ensures Candidates([r1, r2], tokens) == [ScoredRecipe(r1, MatchScore(tokens, r1))]
  {
    assert [r1, r2][..1] == [r1];
    assert [r1][..0] == [];
    assert Candidates([r1], tokens) == [ScoredRecipe(r1, MatchScore(tokens, r1))];
  }

  /** Recipe 1 of the store contains both query words; recipe 2 contains neither. */
  lemma FixtureMatches()
    ensures Matches({"картошка", "лук"}, FakeRecipesDb[0]) == {"картошка", "лук"}
    ensures Matches({"картошка", "лук"}, FakeRecipesDb[1]) == {}
  {
    FixtureIngredientsLower();
  }

  /** The store's recipe 1 shares two tokens with "картошка,лук"; recipe 2 shares none. */
  lemma FixtureExample(query: string)
    requires query == "картошка,лук"
    ensures Search(FakeRecipesDb, query) == [ScoredRecipe(FakeRecipesDb[0], 2)]
  {
    var q := {"картошка", "лук"};
    FixtureQueryTokens(query);
    FixtureMatches();
    var r1 := FakeRecipesDb[0];
    CandidatesFirstOfTwo(r1, FakeRecipesDb[1], q);
    assert FakeRecipesDb == [r1, FakeRecipesDb[1]];
    assert |q| == 2 by {
      assert "картошка"[0] != "лук"[0];
    }
    var c := [ScoredRecipe(r1, 2)];
    assert Candidates(FakeRecipesDb, q) == c;
    assert SortDesc(c) == c by {
      assert c[..0] == [];
    }
  }
}
