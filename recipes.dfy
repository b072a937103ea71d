/**
 * The recipe entity shared by both search endpoints: the six fields of the
 * in-memory `Recipe` record and of the `recipes` table row, and the
 * two-recipe store the in-memory endpoint searches.
 */
module Recipes {

  /** One stored recipe; stored text is kept exactly as it was written. */
  datatype Recipe = Recipe(
    id: int,
    title: string,
    ingredients: seq<string>,
    instructions: string,
    cookingTime: int,
    difficulty: string)

  /** The in-memory store `fake_recipes_db`. */
  const FakeRecipesDb: seq<Recipe> := [
    Recipe(1, "Курица с картошкой", ["курица", "картошка", "лук", "морковь"],
      "1. Обжарить курицу\n2. Добавить овощи\n3. Тушить 30 мин", 40, "easy"),
    Recipe(2, "Яичница", ["яйца", "соль", "перец"],
      "1. Разбить яйца\n2. Посолить\n3. Жарить 5 мин", 10, "easy")
  ]
}
