/** The write paths of api/serializers.py: ingredient validation, the
    existence checks behind `is_favorited` / `is_in_shopping_cart` /
    `is_subscribed`, the favorite, cart and follow validators, and recipe
    create and update as functions from a store to an outcome and a store. */
module Serializers {
  import opened Seqs
  import opened Results
  import opened Models

  /** One entry of a recipe's `ingredients` payload: `{"id": .., "amount": ..}`. */
  datatype IngredientAmount = IngredientAmount(id: IngredientId, amount: int)

  // ---------------------------------------------------------------------
  // Ingredient validation

  /** `IngredientInRecipeSerializer.validate_amount`: amounts below 1 are
      refused, any other amount is returned as it is. */
  function ValidateAmount(value: int): (r: Result<int>)
    ensures r.Ok? <==> value >= 1
    ensures r.Ok? ==> r.value == value
    ensures r.Err? ==> r.error == AmountBelowOne
  {
    if value < 1 then Err(AmountBelowOne) else Ok(value)
  }

  /** The set of ingredient ids named in a payload (`set(unique_id)`). */
  function IdSet(value: seq<IngredientAmount>): set<IngredientId>
  {
    set e | e in value :: e.id
  }

  /** No ingredient id occurs twice in the payload. */
  ghost predicate DistinctIds(value: seq<IngredientAmount>)
  {
    forall i, j :: 0 <= i < j < |value| ==> value[i].id != value[j].id
  }

  /** The source detects duplicates by comparing the payload's length with
      the size of its id set; the two agree exactly when no id repeats. */
  lemma {:induction false} IdSetSize(value: seq<IngredientAmount>)
    ensures |IdSet(value)| <= |value|
    ensures |IdSet(value)| == |value| <==> DistinctIds(value)
  {
    if value != [] {
      var rest := value[1..];
      IdSetSize(rest);
      assert IdSet(value) == {value[0].id} + IdSet(rest);
      if value[0].id in IdSet(rest) {
        var k :| k in rest && k.id == value[0].id;
        var j :| 0 <= j < |rest| && rest[j] == k;
        assert value[j + 1].id == value[0].id;
        assert !DistinctIds(value);
      } else {
        assert |IdSet(value)| == 1 + |IdSet(rest)|;
        if DistinctIds(rest) {
          forall i, j | 0 <= i < j < |value| ensures value[i].id != value[j].id {
            if i == 0 {
              assert value[j] in rest;
            } else {
              assert value[i] == rest[i - 1] && value[j] == rest[j - 1];
            }
          }
        } else {
          var i, j :| 0 <= i < j < |rest| && rest[i].id == rest[j].id;
          assert value[i + 1].id == value[j + 1].id;
        }
      }
    }
  }

  /** `RecipeSerializer.validate_ingredients`: an empty list is refused, a
      list naming one ingredient twice is refused whatever the amounts, and
      an accepted list is returned unchanged. */
  function ValidateIngredients(value: seq<IngredientAmount>): (r: Result<seq<IngredientAmount>>)
    ensures r == Err(NoIngredients) <==> value == []
    ensures r == Err(DuplicateIngredient) <==> value != [] && !DistinctIds(value)
    ensures r.Ok? <==> value != [] && DistinctIds(value)
    ensures r.Ok? ==> r.value == value
  {
    IdSetSize(value);
    if value == [] then Err(NoIngredients)
    else if |value| > |IdSet(value)| then Err(DuplicateIngredient)
    else Ok(value)
  }

  /** The field checks of each nested entry: its id must name a catalog
      ingredient (a primary-key field) and its amount must pass
      `validate_amount`. The first failing entry decides the error. */
  function ValidateEntries(catalog: set<IngredientId>, value: seq<IngredientAmount>): (r: Result<seq<IngredientAmount>>)
    ensures r.Ok? <==> forall e :: e in value ==> e.id in catalog && e.amount >= 1
    ensures r.Ok? ==> r.value == value
    ensures r.Err? ==> r.error in {UnknownIngredient, AmountBelowOne}
  {
    if value == [] then Ok(value)
    else if value[0].id !in catalog then Err(UnknownIngredient)
    else
      match ValidateAmount(value[0].amount)
      case Err(e) => Err(e)
      case Ok(_) =>
        match ValidateEntries(catalog, value[1..])
        case Err(e) => Err(e)
        case Ok(_) => Ok(value)
  }

  /** The whole `ingredients` field: the nested entries first, then
      `validate_ingredients`. */
  function ValidateRecipeIngredients(catalog: set<IngredientId>, value: seq<IngredientAmount>): (r: Result<seq<IngredientAmount>>)
    ensures r.Ok? <==> && value != [] && DistinctIds(value)
                       && forall e :: e in value ==> e.id in catalog && e.amount >= 1
    ensures r.Ok? ==> r.value == value
  {
    match ValidateEntries(catalog, value)
    case Err(e) => Err(e)
    case Ok(v) => ValidateIngredients(v)
  }

  /** What `serializer.save()` may assume of an `ingredients` field once
      `is_valid()` has passed. */
  ghost predicate ValidatedEntries(db: Db, entries: seq<IngredientAmount>)
  {
    ValidateRecipeIngredients(IngredientIds(db), entries).Ok?
  }

  /** What it may assume of a `tags` field: every id names a tag. Nothing
      makes the ids distinct. */
  ghost predicate ValidatedTags(db: Db, tags: seq<TagId>)
  {
    forall t :: t in tags ==> t in TagIds(db)
  }

  ghost predicate ValidatedPayload(db: Db, tags: seq<TagId>, entries: seq<IngredientAmount>)
  {
    ValidatedEntries(db, entries) && ValidatedTags(db, tags)
  }

  // ---------------------------------------------------------------------
  // Existence checks and relation validators

  /** A scan of `table` for `row` (`filter(**data).exists()`). */
  function AnyMatch(table: seq<Mark>, row: Mark): (r: bool)
    ensures r <==> row in table
  {
    table != [] && (table[0] == row || AnyMatch(table[1..], row))
  }

  /** `FieldCheckingMixin.get_is_field_action`: false without a requesting
      user, otherwise whether the relation holds a row (requester, target). */
  function IsFieldAction(requester: Option<UserId>, table: seq<Mark>, target: nat): (r: bool)
    ensures requester.None? ==> !r
    ensures requester.Some? ==> (r <==> Mark(requester.value, target) in table)
  {
    match requester
    case None => false
    case Some(u) => AnyMatch(table, Mark(u, target))
  }

  /** `FavoriteShoppingCartSerializer.validate`, after the `recipe` primary-key
      field: an unknown recipe is refused, then a pair already in the model's
      table is refused. */
  function ValidateMark(db: Db, rel: Relation, row: Mark): (r: Result<Mark>)
    requires rel != FollowRel
    ensures r == Err(UnknownRecipe) <==> row.target !in RecipeIds(db)
    ensures r == Err(AlreadyAdded(rel)) <==> row.target in RecipeIds(db) && row in Table(db, rel)
    ensures r.Ok? <==> row.target in RecipeIds(db) && row !in Table(db, rel)
    ensures r.Ok? ==> r.value == row
  {
    if row.target !in RecipeIds(db) then Err(UnknownRecipe)
    else if AnyMatch(Table(db, rel), row) then Err(AlreadyAdded(rel))
    else Ok(row)
  }

  /** `SubscribeSerializer`: its (user, author) unique-together validator
      runs first, then `validate` refuses a self-follow. */
  function ValidateFollow(db: Db, row: Mark): (r: Result<Mark>)
    ensures r == Err(AlreadyAdded(FollowRel)) <==> row in db.follows
    ensures r == Err(SelfFollow) <==> row !in db.follows && row.user == row.target
    ensures r.Ok? <==> row !in db.follows && row.user != row.target
    ensures r.Ok? ==> r.value == row
  {
    if AnyMatch(db.follows, row) then Err(AlreadyAdded(FollowRel))
    else if row.user == row.target then Err(SelfFollow)
    else Ok(row)
  }

  /** The validator the POST of a relation goes through. */
  function ValidateRelation(db: Db, rel: Relation, row: Mark): (r: Result<Mark>)
    ensures r.Ok? ==> r.value == row && row !in Table(db, rel)
    ensures rel == FollowRel && r.Ok? ==> row.user != row.target
    ensures rel != FollowRel && r.Ok? ==> row.target in RecipeIds(db)
    ensures row in Table(db, rel) ==> r.Err?
  {
    if rel == FollowRel then ValidateFollow(db, row) else ValidateMark(db, rel, row)
  }

  /** In a valid store no self-follow row exists, so a self-follow is always
      refused as such, and never creates a row. */
  lemma SelfFollowRefused(db: Db, u: UserId)
    requires Valid(db)
    ensures ValidateFollow(db, Mark(u, u)) == Err(SelfFollow)
    ensures ValidateRelation(db, FollowRel, Mark(u, u)).Err?
  {
    assert Mark(u, u) !in db.follows;
  }

  // ---------------------------------------------------------------------
  // Recipe create and update

  /** The ingredient lines `bulk_create` writes for a recipe: one per entry. */
  function LinesFor(recipe: RecipeId, entries: seq<IngredientAmount>): (r: seq<Line>)
    ensures |r| == |entries|
    ensures forall i :: 0 <= i < |r| ==> r[i] == Line(recipe, entries[i].id, entries[i].amount)
  {
    seq(|entries|, i requires 0 <= i < |entries| => Line(recipe, entries[i].id, entries[i].amount))
  }

  /** The tag links `bulk_create` writes for a recipe: one per tag. */
  function LinksFor(recipe: RecipeId, tags: seq<TagId>): (r: seq<TagLink>)
    ensures |r| == |tags|
    ensures forall i :: 0 <= i < |r| ==> r[i] == TagLink(recipe, tags[i])
  {
    seq(|tags|, i requires 0 <= i < |tags| => TagLink(recipe, tags[i]))
  }

  /** The lines of one recipe, in table order. */
  function LinesOf(lines: seq<Line>, recipe: RecipeId): seq<Line>
  {
    Filter((l: Line) => l.recipe == recipe, lines)
  }

  /** The tag links of one recipe, in table order. */
  function LinksOf(links: seq<TagLink>, recipe: RecipeId): seq<TagLink>
  {
    Filter((t: TagLink) => t.recipe == recipe, links)
  }

  /** No tag id occurs twice in the payload. */
  predicate DistinctTags(tags: seq<TagId>)
  {
    forall i, j :: 0 <= i < j < |tags| ==> tags[i] != tags[j]
  }

  /** The first `bulk_create` of `FieldCheckingMixin.create_update_instance_recipe`:
      the recipe's ingredient lines. */
  function WithLines(db: Db, recipe: RecipeId, entries: seq<IngredientAmount>): Db
  {
    db.(lines := db.lines + LinesFor(recipe, entries))
  }

  /** Its second `bulk_create`: the recipe's tag links. */
  function WithLinks(db: Db, recipe: RecipeId, tags: seq<TagId>): Db
  {
    db.(tagLinks := db.tagLinks + LinksFor(recipe, tags))
  }

  /** Linking a recipe to no tags writes nothing. */
  lemma NoLinks(db: Db, recipe: RecipeId)
    ensures WithLinks(db, recipe, []) == db
  {
    assert LinksFor(recipe, []) == [];
    assert db.tagLinks + [] == db.tagLinks;
  }

  /** The tables once the recipe row is written under the next id, then its
      lines, then the links to `tags`. */
  function Created(db: Db, author: UserId, name: string, text: string, cookingTime: int,
                   tags: seq<TagId>, entries: seq<IngredientAmount>): Db
  {
    var id := db.nextId;
    var withRow := db.(recipes := db.recipes + [Recipe(id, author, name, text, cookingTime)],
                       nextId := id + 1);
    WithLinks(WithLines(withRow, id, entries), id, tags)
  }

  /** `RecipeSerializer.create`, with the database's answer. The recipe row
      and its lines are written first. The tag links go in one insert, which
      the (recipe, tag) constraint refuses as a whole when a tag repeats; no
      transaction undoes the row and the lines then. */
  function CreateRecipe(db: Db, author: UserId, name: string, text: string, cookingTime: int,
                        tags: seq<TagId>, entries: seq<IngredientAmount>): (Result<RecipeId>, Db)
  {
    if DistinctTags(tags) then (Ok(db.nextId), Created(db, author, name, text, cookingTime, tags, entries))
    else (Err(IntegrityError), Created(db, author, name, text, cookingTime, [], entries))
  }

  /** The scalar fields `super().update` writes on the recipe row; fields a
      partial update leaves out (None) keep their value. */
  function Edited(r: Recipe, name: Option<string>, text: Option<string>, cookingTime: Option<int>): Recipe
  {
    r.(name := if name.Some? then name.value else r.name,
       text := if text.Some? then text.value else r.text,
       cookingTime := if cookingTime.Some? then cookingTime.value else r.cookingTime)
  }

  /** The two filter-deletes at the start of `RecipeSerializer.update`: the
      recipe's tag links and ingredient lines. */
  function Cleared(db: Db, id: RecipeId): Db
  {
    db.(tagLinks := Filter((t: TagLink) => t.recipe != id, db.tagLinks),
        lines := Filter((l: Line) => l.recipe != id, db.lines))
  }

  /** `super().update`: the recipe row with its scalar fields edited. */
  function Saved(db: Db, id: RecipeId, name: Option<string>, text: Option<string>, cookingTime: Option<int>): Db
  {
    db.(recipes := seq(|db.recipes|, i requires 0 <= i < |db.recipes| =>
                         if db.recipes[i].id == id then Edited(db.recipes[i], name, text, cookingTime)
                         else db.recipes[i]))
  }

  /** The deletes, then the new lines, then the links to `tags`. */
  function Replaced(db: Db, id: RecipeId, tags: seq<TagId>, entries: seq<IngredientAmount>): Db
  {
    WithLinks(WithLines(Cleared(db, id), id, entries), id, tags)
  }

  /** The tables after every step of `RecipeSerializer.update` succeeds. */
  function Updated(db: Db, id: RecipeId, name: Option<string>, text: Option<string>, cookingTime: Option<int>,
                   tags: seq<TagId>, entries: seq<IngredientAmount>): Db
  {
    Saved(Replaced(db, id, tags, entries), id, name, text, cookingTime)
  }

  /** `RecipeSerializer.update` under PATCH, the one update method the view
      allows, so DRF runs it as a partial update: `ingredients` and `tags`
      are popped without a default, and a request leaving either out fails
      before anything is written. Otherwise the old links and lines are
      deleted and the new lines written; a repeated tag makes the links'
      insert fail after that, before the scalar fields are saved. */
  function UpdateRecipe(db: Db, id: RecipeId, name: Option<string>, text: Option<string>, cookingTime: Option<int>,
                        tags: Option<seq<TagId>>, entries: Option<seq<IngredientAmount>>): (Result<RecipeId>, Db)
  {
    if entries.None? || tags.None? then (Err(MissingField), db)
    else if DistinctTags(tags.value) then (Ok(id), Updated(db, id, name, text, cookingTime, tags.value, entries.value))
    else (Err(IntegrityError), Replaced(db, id, [], entries.value))
  }

  // ---------------------------------------------------------------------
  // Properties of create and update

  /** Appending a recipe's new lines to a table that holds none of its lines
      gives that recipe exactly the new lines and leaves every other recipe's. */
  lemma {:induction false} AppendedLines(base: seq<Line>, id: RecipeId, entries: seq<IngredientAmount>)
    requires forall l :: l in base ==> l.recipe != id
    ensures LinesOf(base + LinesFor(id, entries), id) == LinesFor(id, entries)
    ensures forall r :: r != id ==> LinesOf(base + LinesFor(id, entries), r) == LinesOf(base, r)
  {
    var added := LinesFor(id, entries);
    FilterAppend((l: Line) => l.recipe == id, base, added);
    FilterDropsAll((l: Line) => l.recipe == id, base);
    FilterKeepsAll((l: Line) => l.recipe == id, added);
    forall r | r != id ensures LinesOf(base + added, r) == LinesOf(base, r) {
      FilterAppend((l: Line) => l.recipe == r, base, added);
      FilterDropsAll((l: Line) => l.recipe == r, added);
    }
  }

  /** The same for tag links. */
  lemma {:induction false} AppendedLinks(base: seq<TagLink>, id: RecipeId, tags: seq<TagId>)
    requires forall t :: t in base ==> t.recipe != id
    ensures LinksOf(base + LinksFor(id, tags), id) == LinksFor(id, tags)
    ensures forall r :: r != id ==> LinksOf(base + LinksFor(id, tags), r) == LinksOf(base, r)
  {
    var added := LinksFor(id, tags);
    FilterAppend((t: TagLink) => t.recipe == id, base, added);
    FilterDropsAll((t: TagLink) => t.recipe == id, base);
    FilterKeepsAll((t: TagLink) => t.recipe == id, added);
    forall r | r != id ensures LinksOf(base + added, r) == LinksOf(base, r) {
      FilterAppend((t: TagLink) => t.recipe == r, base, added);
      FilterDropsAll((t: TagLink) => t.recipe == r, added);
    }
  }

  /** Appending a payload with distinct ingredient ids, under a recipe that
      has no lines yet, keeps the (recipe, ingredient) constraint. */
  lemma {:induction false} AppendedLinesUnique(base: seq<Line>, id: RecipeId, entries: seq<IngredientAmount>)
    requires UniqueBy(base, LineKey) && DistinctIds(entries)
    requires forall l :: l in base ==> l.recipe != id
    ensures UniqueBy(base + LinesFor(id, entries), LineKey)
  {
    var added := LinesFor(id, entries);
    var all := base + added;
    forall i, j | 0 <= i < j < |all| ensures LineKey(all[i]) != LineKey(all[j]) {
      if j >= |base| {
        if i >= |base| {
          assert all[i] == added[i - |base|] && all[j] == added[j - |base|];
        } else {
          assert all[i] in base;
        }
      } else {
        assert all[i] == base[i] && all[j] == base[j];
      }
    }
  }

  /** The database accepts the links of a recipe that has none yet exactly
      when no tag repeats: that is when the (recipe, tag) constraint still
      holds after the insert. */
  lemma {:induction false} AppendedLinksUnique(base: seq<TagLink>, id: RecipeId, tags: seq<TagId>)
    requires UniqueBy(base, LinkKey)
    requires forall t :: t in base ==> t.recipe != id
    ensures UniqueBy(base + LinksFor(id, tags), LinkKey) <==> DistinctTags(tags)
  {
    var added := LinksFor(id, tags);
    var all := base + added;
    if DistinctTags(tags) {
      forall i, j | 0 <= i < j < |all| ensures LinkKey(all[i]) != LinkKey(all[j]) {
        if j >= |base| {
          if i >= |base| {
            assert all[i] == added[i - |base|] && all[j] == added[j - |base|];
          } else {
            assert all[i] in base;
          }
        } else {
          assert all[i] == base[i] && all[j] == base[j];
        }
      }
    } else {
      var i, j :| 0 <= i < j < |tags| && tags[i] == tags[j];
      assert all[|base| + i] == added[i] && all[|base| + j] == added[j];
    }
  }

  /** The recipe a create writes: a fresh id, the requested fields, exactly
      one line per entry with its amount and one link per tag; no other
      recipe, line, link or relation row changes. */
  lemma {:induction false} CreatedChildren(db: Db, author: UserId, name: string, text: string, cookingTime: int,
                                           tags: seq<TagId>, entries: seq<IngredientAmount>)
    requires Valid(db)
    ensures var d := Created(db, author, name, text, cookingTime, tags, entries);
      && db.nextId !in RecipeIds(db)
      && d.recipes == db.recipes + [Recipe(db.nextId, author, name, text, cookingTime)]
      && RecipeIds(d) == RecipeIds(db) + {db.nextId}
      && LinesOf(d.lines, db.nextId) == LinesFor(db.nextId, entries)
      && LinksOf(d.tagLinks, db.nextId) == LinksFor(db.nextId, tags)
      && (forall r :: r != db.nextId ==> LinesOf(d.lines, r) == LinesOf(db.lines, r))
      && (forall r :: r != db.nextId ==> LinksOf(d.tagLinks, r) == LinksOf(db.tagLinks, r))
      && d.cart == db.cart && d.favorites == db.favorites && d.follows == db.follows
      && d.tags == db.tags && d.ingredients == db.ingredients
  {
    var d := Created(db, author, name, text, cookingTime, tags, entries);
    assert RecipeIds(d) == RecipeIds(db) + {db.nextId};
    AppendedLines(db.lines, db.nextId, entries);
    AppendedLinks(db.tagLinks, db.nextId, tags);
  }

  /** Creating a recipe from a validated payload whose tags are distinct
      keeps the store valid. */
  lemma {:induction false} CreatedValid(db: Db, author: UserId, name: string, text: string, cookingTime: int,
                                        tags: seq<TagId>, entries: seq<IngredientAmount>)
    requires Valid(db) && ValidatedPayload(db, tags, entries) && DistinctTags(tags)
    ensures Valid(Created(db, author, name, text, cookingTime, tags, entries))
  {
    var d := Created(db, author, name, text, cookingTime, tags, entries);
    var id := db.nextId;
    assert RecipeIds(d) == RecipeIds(db) + {id};
    assert TagIds(d) == TagIds(db) && IngredientIds(d) == IngredientIds(db);
    forall i, j | 0 <= i < j < |d.recipes| ensures d.recipes[i].id != d.recipes[j].id {
      if j == |d.recipes| - 1 {
        assert d.recipes[i] in db.recipes;
      }
    }
    AppendedLinesUnique(db.lines, id, entries);
    AppendedLinksUnique(db.tagLinks, id, tags);
    // A new link or line names the new recipe and an element of the payload.
    forall t | t in d.tagLinks ensures t.recipe in RecipeIds(d) && t.tag in TagIds(d) {
      if t !in db.tagLinks {
        var k :| 0 <= k < |tags| && LinksFor(id, tags)[k] == t;
        assert tags[k] in tags;
      }
    }
    forall l | l in d.lines ensures l.recipe in RecipeIds(d) && l.ingredient in IngredientIds(d) && l.amount >= 1 {
      if l !in db.lines {
        var k :| 0 <= k < |entries| && LinesFor(id, entries)[k] == l;
        assert entries[k] in entries;
      }
    }
  }

  /** What a create leaves behind, either way: the recipe row and its lines
      are written; the links are written and the new id returned exactly
      when the (recipe, tag) constraint admits them, and otherwise the
      recipe is left with no tags and the error is the database's. */
  lemma CreateRecipeOutcome(db: Db, author: UserId, name: string, text: string, cookingTime: int,
                            tags: seq<TagId>, entries: seq<IngredientAmount>)
    requires Valid(db)
    ensures var (res, d) := CreateRecipe(db, author, name, text, cookingTime, tags, entries);
      && RecipeIds(d) == RecipeIds(db) + {db.nextId}
      && Recipe(db.nextId, author, name, text, cookingTime) in d.recipes
      && LinesOf(d.lines, db.nextId) == LinesFor(db.nextId, entries)
      && (res.Ok? <==> UniqueBy(db.tagLinks + LinksFor(db.nextId, tags), LinkKey))
      && (res.Ok? ==> res.value == db.nextId && LinksOf(d.tagLinks, db.nextId) == LinksFor(db.nextId, tags))
      && (res.Err? ==> res.error == IntegrityError && LinksOf(d.tagLinks, db.nextId) == [])
      && d.cart == db.cart && d.favorites == db.favorites && d.follows == db.follows
  {
    var id := db.nextId;
    assert forall t :: t in db.tagLinks ==> t.recipe != id;
    AppendedLinksUnique(db.tagLinks, id, tags);
    if DistinctTags(tags) {
      CreatedChildren(db, author, name, text, cookingTime, tags, entries);
    } else {
      CreatedChildren(db, author, name, text, cookingTime, [], entries);
    }
  }

  /** A create from a validated payload keeps the store valid whether the
      links are accepted or refused. */
  lemma CreateRecipeValid(db: Db, author: UserId, name: string, text: string, cookingTime: int,
                          tags: seq<TagId>, entries: seq<IngredientAmount>)
    requires Valid(db) && ValidatedPayload(db, tags, entries)
    ensures Valid(CreateRecipe(db, author, name, text, cookingTime, tags, entries).1)
  {
    if DistinctTags(tags) {
      CreatedValid(db, author, name, text, cookingTime, tags, entries);
    } else {
      CreatedValid(db, author, name, text, cookingTime, [], entries);
    }
  }

  /** Saving the scalar fields keeps every recipe id in place and edits only
      the row with the given id. */
  lemma SavedIds(db: Db, id: RecipeId, name: Option<string>, text: Option<string>,
                                    cookingTime: Option<int>)
    ensures var d := Saved(db, id, name, text, cookingTime);
      && |d.recipes| == |db.recipes|
      && (forall i :: 0 <= i < |d.recipes| ==> d.recipes[i].id == db.recipes[i].id)
      && (forall i :: 0 <= i < |d.recipes| && db.recipes[i].id != id ==> d.recipes[i] == db.recipes[i])
      && RecipeIds(d) == RecipeIds(db)
  {
  }

  /** Saving the scalar fields keeps the store valid. */
  lemma {:induction false} SavedValid(db: Db, id: RecipeId, name: Option<string>, text: Option<string>,
                                      cookingTime: Option<int>)
    requires Valid(db)
    ensures Valid(Saved(db, id, name, text, cookingTime))
  {
    var d := Saved(db, id, name, text, cookingTime);
    SavedIds(db, id, name, text, cookingTime);
    assert TagIds(d) == TagIds(db) && IngredientIds(d) == IngredientIds(db);
    forall i, j | 0 <= i < j < |d.recipes| ensures d.recipes[i].id != d.recipes[j].id {
      assert d.recipes[i].id == db.recipes[i].id && d.recipes[j].id == db.recipes[j].id;
    }
    forall r | r in d.recipes ensures r.id < d.nextId {
      var i :| 0 <= i < |d.recipes| && d.recipes[i] == r;
      assert db.recipes[i] in db.recipes;
    }
  }

  /** After the deletes and the inserts the recipe's lines and links are
      exactly the new ones, none of the old survive, and every other
      recipe's lines and links, the recipe rows and the relation tables are
      untouched. */
  lemma {:induction false} ReplacedChildren(db: Db, id: RecipeId, tags: seq<TagId>, entries: seq<IngredientAmount>)
    ensures var d := Replaced(db, id, tags, entries);
      && d.recipes == db.recipes
      && LinesOf(d.lines, id) == LinesFor(id, entries)
      && LinksOf(d.tagLinks, id) == LinksFor(id, tags)
      && (forall r :: r != id ==> LinesOf(d.lines, r) == LinesOf(db.lines, r))
      && (forall r :: r != id ==> LinksOf(d.tagLinks, r) == LinksOf(db.tagLinks, r))
      && d.cart == db.cart && d.favorites == db.favorites && d.follows == db.follows
      && d.tags == db.tags && d.ingredients == db.ingredients && d.nextId == db.nextId
  {
    var keptLines := Filter((l: Line) => l.recipe != id, db.lines);
    var keptLinks := Filter((t: TagLink) => t.recipe != id, db.tagLinks);
    AppendedLines(keptLines, id, entries);
    AppendedLinks(keptLinks, id, tags);
    forall r | r != id
      ensures LinesOf(keptLines, r) == LinesOf(db.lines, r)
      ensures LinksOf(keptLinks, r) == LinksOf(db.tagLinks, r)
    {
      FilterNested((l: Line) => l.recipe == r, (l: Line) => l.recipe != id, db.lines);
      FilterNested((t: TagLink) => t.recipe == r, (t: TagLink) => t.recipe != id, db.tagLinks);
    }
  }

  /** After a full update the recipe's lines and links are exactly the new
      ones, the ids are unchanged, and other recipes' lines and links and
      the relation tables are untouched. */
  lemma UpdatedReplaces(db: Db, id: RecipeId, name: Option<string>, text: Option<string>,
                        cookingTime: Option<int>, tags: seq<TagId>, entries: seq<IngredientAmount>)
    ensures var d := Updated(db, id, name, text, cookingTime, tags, entries);
      && RecipeIds(d) == RecipeIds(db)
      && LinesOf(d.lines, id) == LinesFor(id, entries)
      && LinksOf(d.tagLinks, id) == LinksFor(id, tags)
      && (forall r :: r != id ==> LinesOf(d.lines, r) == LinesOf(db.lines, r))
      && (forall r :: r != id ==> LinksOf(d.tagLinks, r) == LinksOf(db.tagLinks, r))
      && d.cart == db.cart && d.favorites == db.favorites && d.follows == db.follows
  {
    ReplacedChildren(db, id, tags, entries);
    SavedIds(Replaced(db, id, tags, entries), id, name, text, cookingTime);
  }

  /** The deletes and inserts of an update keep the store valid, for an
      existing recipe, a validated payload and distinct tags. */
  lemma {:induction false} ReplacedValid(db: Db, id: RecipeId, tags: seq<TagId>, entries: seq<IngredientAmount>)
    requires Valid(db) && id in RecipeIds(db) && ValidatedPayload(db, tags, entries) && DistinctTags(tags)
    ensures Valid(Replaced(db, id, tags, entries))
  {
    var d := Replaced(db, id, tags, entries);
    var keptLines := Filter((l: Line) => l.recipe != id, db.lines);
    var keptLinks := Filter((t: TagLink) => t.recipe != id, db.tagLinks);
    assert RecipeIds(d) == RecipeIds(db) && TagIds(d) == TagIds(db) && IngredientIds(d) == IngredientIds(db);
    assert UniqueConstraints(d) by {
      FilterUnique((l: Line) => l.recipe != id, db.lines, LineKey);
      FilterUnique((t: TagLink) => t.recipe != id, db.tagLinks, LinkKey);
      AppendedLinesUnique(keptLines, id, entries);
      AppendedLinksUnique(keptLinks, id, tags);
    }
    forall t | t in d.tagLinks ensures t.recipe in RecipeIds(d) && t.tag in TagIds(d) {
      if t !in keptLinks {
        var k :| 0 <= k < |tags| && LinksFor(id, tags)[k] == t;
        assert tags[k] in tags;
      }
    }
    forall l | l in d.lines ensures l.recipe in RecipeIds(d) && l.ingredient in IngredientIds(d) && l.amount >= 1 {
      if l !in keptLines {
        var k :| 0 <= k < |entries| && LinesFor(id, entries)[k] == l;
        assert entries[k] in entries;
      }
    }
  }

  /** A full update of an existing recipe from a validated payload with
      distinct tags keeps the store valid. */
  lemma UpdatedValid(db: Db, id: RecipeId, name: Option<string>, text: Option<string>,
                     cookingTime: Option<int>, tags: seq<TagId>, entries: seq<IngredientAmount>)
    requires Valid(db) && id in RecipeIds(db) && ValidatedPayload(db, tags, entries) && DistinctTags(tags)
    ensures Valid(Updated(db, id, name, text, cookingTime, tags, entries))
  {
    ReplacedValid(db, id, tags, entries);
    SavedValid(Replaced(db, id, tags, entries), id, name, text, cookingTime);
  }

  /** What an update leaves behind: nothing changes when a key is missing;
      otherwise the recipe's lines are the new ones, and its links are the
      new ones with the scalar fields saved when no tag repeats, or it is
      left with no tags and its row unchanged when one does. */
  lemma UpdateRecipeOutcome(db: Db, id: RecipeId, name: Option<string>, text: Option<string>, cookingTime: Option<int>,
                            tags: Option<seq<TagId>>, entries: Option<seq<IngredientAmount>>)
    ensures var (res, d) := UpdateRecipe(db, id, name, text, cookingTime, tags, entries);
      && (res == Err(MissingField) <==> entries.None? || tags.None?)
      && (res == Err(MissingField) ==> d == db)
      && (res.Ok? <==> entries.Some? && tags.Some? && DistinctTags(tags.value))
      && (res.Ok? ==> res.value == id && LinksOf(d.tagLinks, id) == LinksFor(id, tags.value)
                      && d == Saved(Replaced(db, id, tags.value, entries.value), id, name, text, cookingTime))
      && (res == Err(IntegrityError) ==> d.recipes == db.recipes && LinksOf(d.tagLinks, id) == [])
      && (res.Ok? || res == Err(IntegrityError) ==> LinesOf(d.lines, id) == LinesFor(id, entries.value))
      && RecipeIds(d) == RecipeIds(db)
      && d.cart == db.cart && d.favorites == db.favorites && d.follows == db.follows
  {
    if entries.Some? && tags.Some? {
      if DistinctTags(tags.value) {
        UpdatedReplaces(db, id, name, text, cookingTime, tags.value, entries.value);
      } else {
        ReplacedChildren(db, id, [], entries.value);
      }
    }
  }

  /** Every update of an existing recipe whose present fields passed
      validation keeps the store valid, whichever way it ends. */
  lemma UpdateRecipeValid(db: Db, id: RecipeId, name: Option<string>, text: Option<string>, cookingTime: Option<int>,
                          tags: Option<seq<TagId>>, entries: Option<seq<IngredientAmount>>)
    requires Valid(db) && id in RecipeIds(db)
    requires entries.Some? ==> ValidatedEntries(db, entries.value)
    requires tags.Some? ==> ValidatedTags(db, tags.value)
    ensures Valid(UpdateRecipe(db, id, name, text, cookingTime, tags, entries).1)
  {
    if entries.Some? && tags.Some? {
      if DistinctTags(tags.value) {
        UpdatedValid(db, id, name, text, cookingTime, tags.value, entries.value);
      } else {
        ReplacedValid(db, id, [], entries.value);
      }
    }
  }
}
