/** The store schema of recipes/models.py: one table per model, the unique
    constraints and foreign keys as a validity invariant, and the
    `on_delete=CASCADE` rules as functions from a store to a store.

    The three files of the backend name these models differently; this model
    uses one name for each:
    - `Ingredient` is `Ingredients` in models.py (field `title`, unit field
      `measurement_unit`, which views.py reads as `ingredients__measurement`);
    - `Recipe` is `Recipes` in models.py and `recipe` in views.py (its
      `coocking_time` field is `cookingTime` here);
    - `Line` is `RecipesIngredients` in models.py (foreign key `ingredients`),
      `IngredientRecipe` in serializers.py and `recipe_ingredients` in views.py;
    - `TagLink` is the recipe-to-tag link `TagRecipe` of serializers.py;
    - `Mark` is one row of ShoppingCart, Favorite (user, recipe) or Follow,
      whose `subscriber` serializers.py calls `user`. */
module Models {
  import opened Seqs
  import opened Results

  type UserId = nat
  type RecipeId = nat
  type IngredientId = nat
  type TagId = nat

  datatype Tag = Tag(id: TagId, name: string, color: string, slug: string)
  datatype Ingredient = Ingredient(id: IngredientId, title: string, measurementUnit: string)
  datatype Recipe = Recipe(id: RecipeId, author: UserId, name: string, text: string, cookingTime: int)
  datatype Line = Line(recipe: RecipeId, ingredient: IngredientId, amount: int)
  datatype TagLink = TagLink(recipe: RecipeId, tag: TagId)
  /** `target` is a recipe id for ShoppingCart and Favorite, an author's user id for Follow. */
  datatype Mark = Mark(user: UserId, target: nat)

  /** All tables of the store; `nextId` is the recipe table's auto-increment counter. */
  datatype Db = Db(
    tags: seq<Tag>,
    ingredients: seq<Ingredient>,
    recipes: seq<Recipe>,
    lines: seq<Line>,
    tagLinks: seq<TagLink>,
    cart: seq<Mark>,
    favorites: seq<Mark>,
    follows: seq<Mark>,
    nextId: nat)

  const Empty := Db([], [], [], [], [], [], [], [], 1)

  function TagKey(t: Tag): TagId { t.id }
  function SlugKey(t: Tag): string { t.slug }
  function IngredientKey(i: Ingredient): IngredientId { i.id }
  function RecipeKey(r: Recipe): RecipeId { r.id }
  function LineKey(l: Line): (RecipeId, IngredientId) { (l.recipe, l.ingredient) }
  function LinkKey(t: TagLink): (RecipeId, TagId) { (t.recipe, t.tag) }
  function MarkKey(m: Mark): (UserId, nat) { (m.user, m.target) }

  function TagIds(db: Db): set<TagId> { set t | t in db.tags :: t.id }
  function IngredientIds(db: Db): set<IngredientId> { set i | i in db.ingredients :: i.id }
  function RecipeIds(db: Db): set<RecipeId> { set r | r in db.recipes :: r.id }

  /** The unique constraints: primary keys, `slug` (models.py:14),
      (recipe, ingredient) (models.py:84-89), (recipe, tag) of the table
      Django creates for `tags` (models.py:47), (user, recipe) of the cart
      (models.py:130-134) and of favorites (models.py:157-161), and the
      (user, author) unique-together validator of follows. */
  ghost predicate UniqueConstraints(db: Db)
  {
    && UniqueBy(db.tags, TagKey)
    && UniqueBy(db.tags, SlugKey)
    && UniqueBy(db.ingredients, IngredientKey)
    && UniqueBy(db.recipes, RecipeKey)
    && UniqueBy(db.lines, LineKey)
    && UniqueBy(db.tagLinks, LinkKey)
    && UniqueBy(db.cart, MarkKey)
    && UniqueBy(db.favorites, MarkKey)
    && UniqueBy(db.follows, MarkKey)
  }

  /** Every foreign key points at an existing row. */
  ghost predicate References(db: Db)
  {
    && (forall l :: l in db.lines ==> l.recipe in RecipeIds(db) && l.ingredient in IngredientIds(db))
    && (forall t :: t in db.tagLinks ==> t.recipe in RecipeIds(db) && t.tag in TagIds(db))
    && (forall m :: m in db.cart ==> m.target in RecipeIds(db))
    && (forall m :: m in db.favorites ==> m.target in RecipeIds(db))
  }

  /** The store invariant. Besides the schema it holds what every write path
      of the API guarantees: amounts of at least 1, no self-follow, and
      recipe ids below the auto-increment counter. */
  ghost predicate Valid(db: Db)
  {
    && UniqueConstraints(db)
    && References(db)
    && (forall r :: r in db.recipes ==> r.id < db.nextId)
    && (forall l :: l in db.lines ==> l.amount >= 1)
    && (forall m :: m in db.follows ==> m.user != m.target)
  }

  lemma EmptyValid()
    ensures Valid(Empty)
  {
  }

  /** The table of one user-to-object relation. */
  function Table(db: Db, rel: Relation): seq<Mark>
  {
    match rel
    case FavoriteRel => db.favorites
    case CartRel => db.cart
    case FollowRel => db.follows
  }

  /** `db` with the table of `rel` replaced and every other table kept. */
  function WithTable(db: Db, rel: Relation, rows: seq<Mark>): (d: Db)
    ensures Table(d, rel) == rows
    ensures forall other :: other != rel ==> Table(d, other) == Table(db, other)
    ensures d.tags == db.tags && d.ingredients == db.ingredients && d.recipes == db.recipes
    ensures d.lines == db.lines && d.tagLinks == db.tagLinks && d.nextId == db.nextId
  {
    match rel
    case FavoriteRel => db.(favorites := rows)
    case CartRel => db.(cart := rows)
    case FollowRel => db.(follows := rows)
  }

  // ---------------------------------------------------------------------
  // Catalog seeding (the admin site): inserts that the database refuses
  // when a unique column is taken.

  function InsertTag(db: Db, t: Tag): (r: Result<Db>)
    ensures r.Ok? <==> t.id !in TagIds(db) && (forall u :: u in db.tags ==> u.slug != t.slug)
    ensures r.Err? ==> r.error == IntegrityError
    ensures r.Ok? ==> r.value == db.(tags := db.tags + [t])
  {
    if t.id in TagIds(db) || exists u :: u in db.tags && u.slug == t.slug then Err(IntegrityError)
    else Ok(db.(tags := db.tags + [t]))
  }

  function InsertIngredient(db: Db, i: Ingredient): (r: Result<Db>)
    ensures r.Ok? <==> i.id !in IngredientIds(db)
    ensures r.Err? ==> r.error == IntegrityError
    ensures r.Ok? ==> r.value == db.(ingredients := db.ingredients + [i])
  {
    if i.id in IngredientIds(db) then Err(IntegrityError)
    else Ok(db.(ingredients := db.ingredients + [i]))
  }

  /** A successful insert keeps the store valid; in particular tag slugs stay unique. */
  lemma {:induction false} InsertTagValid(db: Db, t: Tag)
    requires Valid(db) && InsertTag(db, t).Ok?
    ensures Valid(InsertTag(db, t).value)
    ensures UniqueBy(InsertTag(db, t).value.tags, SlugKey)
  {
    var d := InsertTag(db, t).value;
    assert TagIds(db) <= TagIds(d);
    forall i, j | 0 <= i < j < |d.tags| ensures d.tags[i].slug != d.tags[j].slug && d.tags[i].id != d.tags[j].id {
      if j == |d.tags| - 1 {
        assert d.tags[i] in db.tags;
      }
    }
  }

  lemma {:induction false} InsertIngredientValid(db: Db, i: Ingredient)
    requires Valid(db) && InsertIngredient(db, i).Ok?
    ensures Valid(InsertIngredient(db, i).value)
  {
    var d := InsertIngredient(db, i).value;
    assert IngredientIds(db) <= IngredientIds(d);
    forall a, b | 0 <= a < b < |d.ingredients| ensures d.ingredients[a].id != d.ingredients[b].id {
      if b == |d.ingredients| - 1 {
        assert d.ingredients[a] in db.ingredients;
      }
    }
  }

  // ---------------------------------------------------------------------
  // Cascading deletes

  /** Deleting a recipe deletes its ingredient lines (models.py:79), its tag
      links, its cart rows (models.py:120-125) and its favorite rows
      (models.py:147-152). */
  function DeleteRecipe(db: Db, id: RecipeId): (d: Db)
    ensures forall r :: r in d.recipes <==> r in db.recipes && r.id != id
    ensures forall l :: l in d.lines <==> l in db.lines && l.recipe != id
    ensures forall t :: t in d.tagLinks <==> t in db.tagLinks && t.recipe != id
    ensures forall m :: m in d.cart <==> m in db.cart && m.target != id
    ensures forall m :: m in d.favorites <==> m in db.favorites && m.target != id
    ensures d.tags == db.tags && d.ingredients == db.ingredients && d.follows == db.follows
    ensures d.nextId == db.nextId
  {
    db.(recipes := Filter((r: Recipe) => r.id != id, db.recipes),
        lines := Filter((l: Line) => l.recipe != id, db.lines),
        tagLinks := Filter((t: TagLink) => t.recipe != id, db.tagLinks),
        cart := Filter((m: Mark) => m.target != id, db.cart),
        favorites := Filter((m: Mark) => m.target != id, db.favorites))
  }

  lemma DeleteRecipeValid(db: Db, id: RecipeId)
    requires Valid(db)
    ensures Valid(DeleteRecipe(db, id))
    ensures id !in RecipeIds(DeleteRecipe(db, id))
  {
    var d := DeleteRecipe(db, id);
    DeleteRecipeIds(db, id);
    assert UniqueConstraints(d) by {
      FilterUnique((r: Recipe) => r.id != id, db.recipes, RecipeKey);
      FilterUnique((l: Line) => l.recipe != id, db.lines, LineKey);
      FilterUnique((t: TagLink) => t.recipe != id, db.tagLinks, LinkKey);
      FilterUnique((m: Mark) => m.target != id, db.cart, MarkKey);
      FilterUnique((m: Mark) => m.target != id, db.favorites, MarkKey);
    }
    assert References(d) by {
      assert TagIds(d) == TagIds(db) && IngredientIds(d) == IngredientIds(db);
    }
  }

  lemma DeleteRecipeIds(db: Db, id: RecipeId)
    ensures RecipeIds(DeleteRecipe(db, id)) == RecipeIds(db) - {id}
  {
  }

  /** Deleting an ingredient deletes every line that uses it (models.py:80). */
  function DeleteIngredient(db: Db, id: IngredientId): (d: Db)
    ensures forall i :: i in d.ingredients <==> i in db.ingredients && i.id != id
    ensures forall l :: l in d.lines <==> l in db.lines && l.ingredient != id
    ensures d.recipes == db.recipes && d.tags == db.tags && d.tagLinks == db.tagLinks
    ensures d.cart == db.cart && d.favorites == db.favorites && d.follows == db.follows
    ensures d.nextId == db.nextId
  {
    db.(ingredients := Filter((i: Ingredient) => i.id != id, db.ingredients),
        lines := Filter((l: Line) => l.ingredient != id, db.lines))
  }

  lemma DeleteIngredientValid(db: Db, id: IngredientId)
    requires Valid(db)
    ensures Valid(DeleteIngredient(db, id))
    ensures id !in IngredientIds(DeleteIngredient(db, id))
  {
    var d := DeleteIngredient(db, id);
    assert IngredientIds(d) == IngredientIds(db) - {id};
    assert UniqueConstraints(d) by {
      FilterUnique((i: Ingredient) => i.id != id, db.ingredients, IngredientKey);
      FilterUnique((l: Line) => l.ingredient != id, db.lines, LineKey);
    }
    assert References(d) by {
      assert TagIds(d) == TagIds(db) && RecipeIds(d) == RecipeIds(db);
    }
  }

  /** Deleting a tag deletes its links to recipes (the many-to-many table). */
  function DeleteTag(db: Db, id: TagId): (d: Db)
    ensures forall t :: t in d.tags <==> t in db.tags && t.id != id
    ensures forall t :: t in d.tagLinks <==> t in db.tagLinks && t.tag != id
    ensures d.recipes == db.recipes && d.ingredients == db.ingredients && d.lines == db.lines
    ensures d.cart == db.cart && d.favorites == db.favorites && d.follows == db.follows
    ensures d.nextId == db.nextId
  {
    db.(tags := Filter((t: Tag) => t.id != id, db.tags),
        tagLinks := Filter((t: TagLink) => t.tag != id, db.tagLinks))
  }

  lemma DeleteTagValid(db: Db, id: TagId)
    requires Valid(db)
    ensures Valid(DeleteTag(db, id))
    ensures id !in TagIds(DeleteTag(db, id))
  {
    var d := DeleteTag(db, id);
    assert TagIds(d) == TagIds(db) - {id};
    assert UniqueConstraints(d) by {
      FilterUnique((t: Tag) => t.id != id, db.tags, TagKey);
      FilterUnique((t: Tag) => t.id != id, db.tags, SlugKey);
      FilterUnique((t: TagLink) => t.tag != id, db.tagLinks, LinkKey);
    }
    assert References(d) by {
      assert IngredientIds(d) == IngredientIds(db) && RecipeIds(d) == RecipeIds(db);
    }
  }

  /** The recipes `u` wrote. */
  function AuthoredBy(db: Db, u: UserId): set<RecipeId>
  {
    set r | r in db.recipes && r.author == u :: r.id
  }

  /** Deleting a user deletes the recipes they wrote (models.py:51-56) with
      everything those recipes cascade to, their own cart and favorite rows
      (models.py:114-119, 141-146) and every follow row on either side
      (models.py:99-110). */
  function DeleteUser(db: Db, u: UserId): (d: Db)
    ensures forall r :: r in d.recipes <==> r in db.recipes && r.author != u
    ensures forall l :: l in d.lines <==> l in db.lines && l.recipe !in AuthoredBy(db, u)
    ensures forall t :: t in d.tagLinks <==> t in db.tagLinks && t.recipe !in AuthoredBy(db, u)
    ensures forall m :: m in d.cart <==> m in db.cart && m.user != u && m.target !in AuthoredBy(db, u)
    ensures forall m :: m in d.favorites <==> m in db.favorites && m.user != u && m.target !in AuthoredBy(db, u)
    ensures forall m :: m in d.follows <==> m in db.follows && m.user != u && m.target != u
    ensures d.tags == db.tags && d.ingredients == db.ingredients && d.nextId == db.nextId
  {
    var gone := AuthoredBy(db, u);
    db.(recipes := Filter((r: Recipe) => r.author != u, db.recipes),
        lines := Filter((l: Line) => l.recipe !in gone, db.lines),
        tagLinks := Filter((t: TagLink) => t.recipe !in gone, db.tagLinks),
        cart := Filter((m: Mark) => m.user != u && m.target !in gone, db.cart),
        favorites := Filter((m: Mark) => m.user != u && m.target !in gone, db.favorites),
        follows := Filter((m: Mark) => m.user != u && m.target != u, db.follows))
  }

  /** With unique recipe ids, the recipes left are exactly those whose id
      the user did not author. */
  lemma DeleteUserIds(db: Db, u: UserId)
    requires UniqueBy(db.recipes, RecipeKey)
    ensures RecipeIds(DeleteUser(db, u)) == RecipeIds(db) - AuthoredBy(db, u)
  {
    var d := DeleteUser(db, u);
    var gone := AuthoredBy(db, u);
    forall x | x in RecipeIds(db) - gone ensures x in RecipeIds(d) {
      var r :| r in db.recipes && r.id == x;
      assert r in d.recipes;
    }
    forall x | x in RecipeIds(d) ensures x in RecipeIds(db) - gone {
      var r :| r in d.recipes && r.id == x;
    }
  }

  lemma DeleteUserValid(db: Db, u: UserId)
    requires Valid(db)
    ensures Valid(DeleteUser(db, u))
    ensures forall r :: r in DeleteUser(db, u).recipes ==> r.author != u
  {
    var d := DeleteUser(db, u);
    var gone := AuthoredBy(db, u);
    assert UniqueConstraints(d) by {
      FilterUnique((r: Recipe) => r.author != u, db.recipes, RecipeKey);
      FilterUnique((l: Line) => l.recipe !in gone, db.lines, LineKey);
      FilterUnique((t: TagLink) => t.recipe !in gone, db.tagLinks, LinkKey);
      FilterUnique((m: Mark) => m.user != u && m.target !in gone, db.cart, MarkKey);
      FilterUnique((m: Mark) => m.user != u && m.target !in gone, db.favorites, MarkKey);
      FilterUnique((m: Mark) => m.user != u && m.target != u, db.follows, MarkKey);
    }
    assert References(d) by {
      DeleteUserIds(db, u);
      assert TagIds(d) == TagIds(db) && IngredientIds(d) == IngredientIds(db);
    }
  }
}
