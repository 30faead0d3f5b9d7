/** The database as one mutable object: each table a field the operations
    reassign, each operation proved to leave the store in the state its
    specification function describes, and to keep the store's invariants. */
module Store {
  import opened Seqs
  import opened Results
  import opened Models
  import opened Serializers
  import Views
  import opened ShoppingList

  class Store {
    var tags: seq<Tag>
    var ingredients: seq<Ingredient>
    var recipes: seq<Recipe>
    var lines: seq<Line>
    var tagLinks: seq<TagLink>
    var cart: seq<Mark>
    var favorites: seq<Mark>
    var follows: seq<Mark>
    var nextId: nat

    /** The tables as one value. */
    function State(): Db
      reads this
    {
      Db(tags, ingredients, recipes, lines, tagLinks, cart, favorites, follows, nextId)
    }

    ghost predicate Valid()
      reads this
    {
      Models.Valid(State())
    }

    /** Overwrite every table with those of `d`. */
    method SetState(d: Db)
      modifies this
      ensures State() == d
    {
      tags, ingredients, recipes, lines, tagLinks := d.tags, d.ingredients, d.recipes, d.lines, d.tagLinks;
      cart, favorites, follows, nextId := d.cart, d.favorites, d.follows, d.nextId;
    }

    /** An empty database; recipe ids start at 1. */
    constructor ()
      ensures State() == Empty && Valid()
    {
      tags, ingredients, recipes, lines, tagLinks := [], [], [], [], [];
      cart, favorites, follows := [], [], [];
      nextId := 1;
      EmptyValid();
    }

    /** `RecipeSerializer.create` after `is_valid()`: the recipe row, then
        `create_update_instance_recipe`, whose links insert the database
        refuses when a tag repeats. Returns the new recipe's id or that
        refusal. */
    method Create(author: UserId, name: string, text: string, cookingTime: int,
                  tagIds: seq<TagId>, entries: seq<IngredientAmount>) returns (r: Result<RecipeId>)
      requires Valid() && ValidatedPayload(State(), tagIds, entries)
      modifies this
      ensures (r, State()) == CreateRecipe(old(State()), author, name, text, cookingTime, tagIds, entries)
      ensures r.Ok? ==> r.value !in RecipeIds(old(State()))
                        && LinesOf(lines, r.value) == LinesFor(r.value, entries)
                        && LinksOf(tagLinks, r.value) == LinksFor(r.value, tagIds)
      ensures Valid()
    {
      CreateRecipeOutcome(State(), author, name, text, cookingTime, tagIds, entries);
      CreateRecipeValid(State(), author, name, text, cookingTime, tagIds, entries);
      r := WriteRecipe(author, name, text, cookingTime, tagIds, entries);
    }

    /** The writes of a create, in the order the source makes them. */
    method WriteRecipe(author: UserId, name: string, text: string, cookingTime: int,
                       tagIds: seq<TagId>, entries: seq<IngredientAmount>) returns (r: Result<RecipeId>)
      modifies this
      ensures (r, State()) == CreateRecipe(old(State()), author, name, text, cookingTime, tagIds, entries)
    {
      var id := nextId;
      recipes := recipes + [Recipe(id, author, name, text, cookingTime)];
      nextId := nextId + 1;
      AddLines(id, entries);
      ghost var written := State();
      if DistinctTags(tagIds) {
        AddLinks(id, tagIds);
        r := Ok(id);
      } else {
        NoLinks(written, id);
        r := Err(IntegrityError);
      }
    }

    /** `RecipeSerializer.update` after `is_valid()` on a PATCH: pop the two
        nested fields, delete the recipe's tag links and lines, write the new
        ones, then save the scalar fields. */
    method Update(id: RecipeId, name: Option<string>, text: Option<string>, cookingTime: Option<int>,
                  tagIds: Option<seq<TagId>>, entries: Option<seq<IngredientAmount>>) returns (r: Result<RecipeId>)
      requires Valid() && id in RecipeIds(State())
      requires entries.Some? ==> ValidatedEntries(State(), entries.value)
      requires tagIds.Some? ==> ValidatedTags(State(), tagIds.value)
      modifies this
      ensures (r, State()) == UpdateRecipe(old(State()), id, name, text, cookingTime, tagIds, entries)
      ensures r.Ok? ==> LinesOf(lines, id) == LinesFor(id, entries.value) && LinksOf(tagLinks, id) == LinksFor(id, tagIds.value)
      ensures Valid()
    {
      UpdateRecipeOutcome(State(), id, name, text, cookingTime, tagIds, entries);
      UpdateRecipeValid(State(), id, name, text, cookingTime, tagIds, entries);
      r := RewriteRecipe(id, name, text, cookingTime, tagIds, entries);
    }

    /** The steps of an update, in the order the source takes them. */
    method RewriteRecipe(id: RecipeId, name: Option<string>, text: Option<string>, cookingTime: Option<int>,
                         tagIds: Option<seq<TagId>>, entries: Option<seq<IngredientAmount>>) returns (r: Result<RecipeId>)
      modifies this
      ensures (r, State()) == UpdateRecipe(old(State()), id, name, text, cookingTime, tagIds, entries)
    {
      if entries.None? || tagIds.None? {
        r := Err(MissingField);
        return;
      }
      ClearChildren(id);
      AddLines(id, entries.value);
      ghost var written := State();
      if DistinctTags(tagIds.value) {
        AddLinks(id, tagIds.value);
        SaveFields(id, name, text, cookingTime);
        r := Ok(id);
      } else {
        NoLinks(written, id);
        r := Err(IntegrityError);
      }
    }

    /** The filter-deletes of the recipe's tag links and ingredient lines. */
    method ClearChildren(id: RecipeId)
      modifies this
      ensures State() == Cleared(old(State()), id)
    {
      tagLinks := Filter((t: TagLink) => t.recipe != id, tagLinks);
      lines := Filter((l: Line) => l.recipe != id, lines);
    }

    /** The first `bulk_create` of `create_update_instance_recipe`: the
        recipe's ingredient lines. */
    method AddLines(id: RecipeId, entries: seq<IngredientAmount>)
      modifies this
      ensures State() == WithLines(old(State()), id, entries)
    {
      lines := lines + LinesFor(id, entries);
    }

    /** Its second `bulk_create`: the recipe's tag links. */
    method AddLinks(id: RecipeId, tagIds: seq<TagId>)
      modifies this
      ensures State() == WithLinks(old(State()), id, tagIds)
    {
      tagLinks := tagLinks + LinksFor(id, tagIds);
    }

    /** `super().update`: write the scalar fields of the recipe row. */
    method SaveFields(id: RecipeId, name: Option<string>, text: Option<string>, cookingTime: Option<int>)
      modifies this
      ensures State() == Saved(old(State()), id, name, text, cookingTime)
    {
      var rows := recipes;
      recipes := seq(|rows|, i requires 0 <= i < |rows| =>
                       if rows[i].id == id then Edited(rows[i], name, text, cookingTime) else rows[i]);
    }

    /** `add_del_obj_action` on the table of `rel`. */
    method Toggle(rel: Relation, verb: Views.Verb, row: Mark) returns (outcome: Views.Outcome)
      requires Valid()
      modifies this
      ensures (outcome, State()) == Views.Toggle(old(State()), rel, verb, row)
      ensures Valid()
    {
      Views.ToggleValid(State(), rel, verb, row);
      match verb
      case Post =>
        var checked := ValidateRelation(State(), rel, row);
        if checked.Err? {
          outcome := Views.Rejected(checked.error);
        } else {
          outcome := Views.Created(row);
          match rel
          case FavoriteRel => favorites := favorites + [row];
          case CartRel => cart := cart + [row];
          case FollowRel => follows := follows + [row];
        }
      case Delete =>
        outcome := Views.Deleted;
        match rel
        case FavoriteRel => favorites := Views.Without(favorites, row);
        case CartRel => cart := Views.Without(cart, row);
        case FollowRel => follows := Views.Without(follows, row);
    }

    /** `RecipesViewSet.favorite`: the requester's favorite row for the recipe. */
    method Favorite(requester: UserId, recipe: RecipeId, verb: Views.Verb) returns (outcome: Views.Outcome)
      requires Valid()
      modifies this
      ensures (outcome, State()) == Views.Favorite(old(State()), requester, recipe, verb)
      ensures Valid()
    {
      outcome := Toggle(FavoriteRel, verb, Mark(requester, recipe));
    }

    /** `RecipesViewSet.shopping_card`: the requester's cart row for the recipe. */
    method ShoppingCard(requester: UserId, recipe: RecipeId, verb: Views.Verb) returns (outcome: Views.Outcome)
      requires Valid()
      modifies this
      ensures (outcome, State()) == Views.ShoppingCard(old(State()), requester, recipe, verb)
      ensures Valid()
    {
      outcome := Toggle(CartRel, verb, Mark(requester, recipe));
    }

    /** `download_shopping_cart`: the cart's lines joined, grouped and
        sorted, then written out under the header. */
    method DownloadShoppingCart(user: UserId) returns (text: string)
      ensures text == CartDocument(State(), user)
    {
      var entries := Aggregate(CartItems(lines, ingredients, CartRecipeIds(cart, user)));
      text := WriteList(Header, entries);
    }

    /** Deleting a recipe, with its lines, tag links, cart and favorite rows. */
    method DeleteRecipe(id: RecipeId)
      requires Valid()
      modifies this
      ensures State() == Models.DeleteRecipe(old(State()), id)
      ensures Valid() && id !in RecipeIds(State())
    {
      var d := Models.DeleteRecipe(State(), id);
      DeleteRecipeValid(State(), id);
      SetState(d);
    }

    /** Deleting an ingredient, with every line that uses it. */
    method DeleteIngredient(id: IngredientId)
      requires Valid()
      modifies this
      ensures State() == Models.DeleteIngredient(old(State()), id)
      ensures Valid()
    {
      DeleteIngredientValid(State(), id);
      SetState(Models.DeleteIngredient(State(), id));
    }

    /** Deleting a tag, with its links to recipes. */
    method DeleteTag(id: TagId)
      requires Valid()
      modifies this
      ensures State() == Models.DeleteTag(old(State()), id)
      ensures Valid()
    {
      DeleteTagValid(State(), id);
      SetState(Models.DeleteTag(State(), id));
    }

    /** Deleting a user: their recipes (and what hangs off them), their cart
        and favorite rows, and follow rows on either side. */
    method DeleteUser(u: UserId)
      requires Valid()
      modifies this
      ensures State() == Models.DeleteUser(old(State()), u)
      ensures Valid()
    {
      var d := Models.DeleteUser(State(), u);
      DeleteUserValid(State(), u);
      SetState(d);
    }

    /** Inserting a tag; refused when its id or slug is taken. */
    method AddTag(t: Tag) returns (ok: bool)
      requires Valid()
      modifies this
      ensures ok <==> InsertTag(old(State()), t).Ok?
      ensures State() == if ok then InsertTag(old(State()), t).value else old(State())
      ensures Valid()
    {
      var r := InsertTag(State(), t);
      ok := r.Ok?;
      if ok {
        InsertTagValid(State(), t);
        tags := tags + [t];
      }
    }

    /** Inserting an ingredient; refused when its id is taken. */
    method AddIngredient(i: Ingredient) returns (ok: bool)
      requires Valid()
      modifies this
      ensures ok <==> InsertIngredient(old(State()), i).Ok?
      ensures State() == if ok then InsertIngredient(old(State()), i).value else old(State())
      ensures Valid()
    {
      var r := InsertIngredient(State(), i);
      ok := r.Ok?;
      if ok {
        InsertIngredientValid(State(), i);
        ingredients := ingredients + [i];
      }
    }
  }
}
