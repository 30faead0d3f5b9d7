# Foodgram recipe store — a verified model

Foodgram is a Django/DRF backend for publishing recipes. Users compose recipes from catalog ingredients (each with an amount) and tags. They mark recipes as favorites or put them in a shopping cart, follow other authors, and download a shopping list that merges the ingredients of every recipe in their cart.

This project models the recipe-composition and shopping-list core of that backend as one in-memory store:

- `Models` (models.dfy): the schema as datatypes (`Tag`, `Ingredient`, `Recipe`, `Line`, `TagLink`, and `Mark`).
  - `Line` is a recipe's ingredient line. `TagLink` is the recipe–tag link.
  - `Mark` is one (user, target) row of the cart, favorite or follow table.
  - The whole database is a value `Db`.
  - Its unique constraints, its foreign keys and the invariants the validators establish are the predicate `Valid`.
  - The cascading deletes are functions on `Db`, each proved to keep `Valid`.
- `Serializers` (serializers.dfy) models the DRF serializers:
  - the ingredient-list and amount validators;
  - the favorite/cart and follow validators;
  - the `get_is_field_action` existence check;
  - recipe create and update as functions from a store to an outcome and a store. The functions include the database's refusal of a repeated tag and the update's failure on a PATCH without `ingredients` or `tags`. Lemmas prove that the recipe's lines and tag links are exactly the new ones and that `Valid` is kept either way.
- `Views` (views.dfy) models `add_del_obj_action` and the `favorite` and `shopping_card` actions:
  - adding is strict, removing is idempotent;
  - add-then-remove restores the store;
  - every toggle touches only its own table and keeps `Valid`.
- `ShoppingList` (shopping_list.dfy) models `download_shopping_cart`:
  - the join of cart recipes to their lines and ingredients;
  - GROUP BY (title, unit) with `Sum('amount')`;
  - Python's `sorted`;
  - the numbered rendering under the fixed header.

  The aggregate is proved to hold one entry per distinct (title, unit) with the summed amount, strictly ascending by (title, unit) and with the total conserved. The document is proved independent of row order, and an empty cart yields only the header.
- `Text` (text.dfy): Python's string order, integer rendering (with its parser as inverse), and `str.capitalize`.
- `Store` (store.dfy) is a class whose fields are the tables. Every method is proved to reach the state its specification function describes.
  - Create and update write the tables in the source's order, through step methods: `ClearChildren`, `AddLines`, `AddLinks` and `SaveFields`.
  - The toggles and the inserts assign the one table they change.
  - The cascading deletes compute the cascade's result and write every table back through `SetState`.
  - Every method is also proved to keep `Valid`, except the following. The step methods `WriteRecipe`, `RewriteRecipe`, `ClearChildren`, `AddLines`, `AddLinks` and `SaveFields` are internal steps whose callers, `Create` and `Update`, re-establish `Valid`. `SetState` and the read-only `DownloadShoppingCart` are the other two exceptions.
  - The shopping-list loop is `ShoppingList.WriteList`.
- `Seqs` (seqs.dfy) and `Results` (results.dfy) hold the queryset filter, the unique-constraint predicate, and the result and error types.

The three source files name the same tables differently, and the model uses one set of names:

- `Ingredients`/`Ingredient` become `Ingredient`. Its `measurement_unit`, which views.py reads as `ingredients__measurement`, becomes `measurementUnit`.
- `Recipes`/`Recipe`/`recipe` become `Recipe`, and `coocking_time` becomes `cookingTime`.
- `RecipesIngredients`/`IngredientRecipe`/`recipe_ingredients` become `Line`.
- `TagRecipe` and the `tags` many-to-many become `TagLink`.
- Follow's `subscriber`/`user` becomes `Mark.user`.

Two details of the code that the model keeps:

- The shopping-list header is the literal at views.py:187: a Latin `C`, then Cyrillic letters, then a space before the newline.
- For a follow, DRF runs a serializer's unique-together validator before its `validate` method. A duplicate pair is therefore reported as already added before the self-follow check runs.

## Model

| member | source | states |
|---|---|---|
| Models.InsertTag | backend/foodgram/recipes/models.py:14 | a tag insert is refused with an integrity error exactly when its id or its slug is already taken, and otherwise appends the tag |
| Models.InsertTagValid | backend/foodgram/recipes/models.py:14 | an accepted tag insert keeps slugs unique and the store valid |
| Models.InsertIngredient | backend/foodgram/recipes/models.py:24-29 | an ingredient insert is refused exactly when its id is taken, and otherwise appends it |
| Models.InsertIngredientValid | backend/foodgram/recipes/models.py:24-29 | an accepted ingredient insert keeps the store valid |
| Models.DeleteRecipe | backend/foodgram/recipes/models.py:79 | deleting a recipe removes exactly its row, its ingredient lines, its tag links, and its cart and favorite rows (the CASCADE foreign keys at lines 79, 120-125 and 147-152); nothing else changes |
| Models.DeleteRecipeValid | backend/foodgram/recipes/models.py:79 | after the cascade the store is valid and the recipe id is gone |
| Models.DeleteIngredient | backend/foodgram/recipes/models.py:80 | deleting an ingredient removes exactly it and every line that references it; nothing else changes |
| Models.DeleteIngredientValid | backend/foodgram/recipes/models.py:80 | the store stays valid after an ingredient cascade |
| Models.DeleteTag | backend/foodgram/recipes/models.py:47 | deleting a tag removes exactly it and its links to recipes |
| Models.DeleteTagValid | backend/foodgram/recipes/models.py:47 | the store stays valid after a tag cascade |
| Models.DeleteUser | backend/foodgram/recipes/models.py:51-56 | deleting a user removes their authored recipes with everything hanging off them, their cart and favorite rows, and follow rows on either side (lines 99-110, 114-119, 141-146) |
| Models.DeleteUserValid | backend/foodgram/recipes/models.py:98-110 | the store stays valid after a user cascade |
| Serializers.ValidateAmount | backend/foodgram/api/serializers.py:104-109 | an amount is accepted iff it is at least 1, and an accepted amount is returned unchanged |
| Serializers.IdSetSize | backend/foodgram/api/serializers.py:212-213 | the set of ids is as large as the list exactly when no id repeats, which is what the length comparison tests |
| Serializers.ValidateIngredients | backend/foodgram/api/serializers.py:208-219 | an empty list is refused; a list with any id twice (whatever the amounts) is refused; otherwise the list is returned unchanged |
| Serializers.ValidateEntries | backend/foodgram/api/serializers.py:89-109 | a list is accepted iff each entry's id names a catalog ingredient and its amount is at least 1, and an accepted list is returned unchanged |
| Serializers.ValidateRecipeIngredients | backend/foodgram/api/serializers.py:162-164 | the whole `ingredients` field is accepted iff it is non-empty, has distinct ids, names only catalog ingredients and has amounts of at least 1 |
| Serializers.AnyMatch | backend/foodgram/api/serializers.py:21 | the existence query is true iff the row is in the table |
| Serializers.IsFieldAction | backend/foodgram/api/serializers.py:14-21 | false without a requesting user; otherwise true iff the table holds the row (requester, target) |
| Serializers.ValidateMark | backend/foodgram/api/serializers.py:319-332 | a favorite/cart add is refused as unknown iff the recipe does not exist, refused as already added iff the (user, recipe) row already exists, and accepted otherwise |
| Serializers.ValidateFollow | backend/foodgram/api/serializers.py:269-274 | a follow is refused as already added iff the (user, author) row exists, else refused as self-follow iff user equals author, else accepted |
| Serializers.SelfFollowRefused | backend/foodgram/api/serializers.py:291-296 | in a valid store a self-follow is always refused as a self-follow |
| Serializers.ValidateRelation | backend/foodgram/api/serializers.py:319-332 | an accepted row is not yet in its table, a cart or favorite row names an existing recipe, and a follow row is not a self-follow |
| Serializers.AppendedLines | backend/foodgram/api/serializers.py:23-28 | bulk-creating the lines of a recipe that has none gives it exactly one line per entry, with the entry's ingredient and amount, and leaves every other recipe's lines |
| Serializers.AppendedLinks | backend/foodgram/api/serializers.py:30-31 | bulk-creating the tag links gives the recipe exactly one link per given tag and leaves every other recipe's links |
| Serializers.AppendedLinesUnique | backend/foodgram/recipes/models.py:84-89 | appending a validated entry list keeps (recipe, ingredient) unique |
| Serializers.AppendedLinksUnique | backend/foodgram/recipes/models.py:47 | the links of a recipe that has none yet keep the (recipe, tag) constraint of the many-to-many table iff no tag repeats |
| Serializers.CreatedChildren | backend/foodgram/api/serializers.py:187-194 | a created recipe gets a fresh id and the requested fields, exactly one line per entry and one link per tag; other recipes, lines, links and relation rows are unchanged |
| Serializers.CreatedValid | backend/foodgram/api/serializers.py:187-194 | creating from a validated payload with distinct tags keeps the store valid |
| Serializers.CreateRecipeOutcome | backend/foodgram/api/serializers.py:187-194 | the row and lines are written either way; the links are written and the id returned iff the (recipe, tag) constraint admits them; otherwise the recipe has no links and the error is an integrity error |
| Serializers.CreateRecipeValid | backend/foodgram/api/serializers.py:187-194 | a create from a validated payload keeps the store valid whether its links are accepted or refused |
| Serializers.SavedIds | backend/foodgram/api/serializers.py:206 | saving the scalar fields keeps every recipe id in place and changes only the row with the given id |
| Serializers.SavedValid | backend/foodgram/api/serializers.py:206 | saving the scalar fields keeps the store valid |
| Serializers.ReplacedChildren | backend/foodgram/api/serializers.py:201-204 | after the deletes and inserts the recipe's lines and links are exactly the new ones and nothing else changes |
| Serializers.ReplacedValid | backend/foodgram/api/serializers.py:201-204 | the deletes and inserts keep the store valid for an existing recipe, a validated payload and distinct tags |
| Serializers.UpdatedReplaces | backend/foodgram/api/serializers.py:196-206 | after a full update the recipe's lines and links are exactly the new ones (none of the old survive), the ids are unchanged, and other recipes' lines and links and the relation tables are untouched |
| Serializers.UpdatedValid | backend/foodgram/api/serializers.py:196-206 | a full update of an existing recipe from a validated payload with distinct tags keeps the store valid |
| Serializers.UpdateRecipeOutcome | backend/foodgram/api/serializers.py:196-206 | a PATCH without `ingredients` or `tags` fails with nothing changed; otherwise the lines are the new ones, and the update succeeds iff no tag repeats; a repeated tag leaves the recipe with no links and its row unsaved |
| Serializers.UpdateRecipeValid | backend/foodgram/api/serializers.py:196-206 | every update of an existing recipe whose present fields passed validation keeps the store valid, however it ends |
| Text.StrLessTransitive | backend/foodgram/api/views.py:194 | Python's string order is transitive |
| Text.StrLessTotal | backend/foodgram/api/views.py:194 | Python's string order is total |
| Text.ParseIntToString | backend/foodgram/api/views.py:195-196 | the decimal rendering of an integer is a well-formed numeral that reads back to the integer |
| Text.Capitalize | backend/foodgram/api/views.py:195 | `capitalize` keeps the length and the letters up to case, leaves no lower-case first letter and no upper-case letter after it |
| Text.CapitalizeIdempotent | backend/foodgram/api/views.py:195 | capitalizing twice equals capitalizing once |
| ShoppingList.CartItemsPermutation | backend/foodgram/api/views.py:188-190 | reordering the lines table only reorders the joined rows |
| ShoppingList.CartItemsNoRecipes | backend/foodgram/api/views.py:188-190 | with no recipe in the cart the query returns no rows |
| ShoppingList.AddToGroup | backend/foodgram/api/views.py:190-192 | adding a row to the groups adds its key to the key set, adds its amount to its key's sum only, and adds it to the total |
| ShoppingList.GroupInto | backend/foodgram/api/views.py:190-192 | folding rows into groups unites the key sets and adds the per-key sums and the totals |
| ShoppingList.GroupSpec | backend/foodgram/api/views.py:190-192 | grouping yields one group per distinct (title, unit), each holding the sum of its rows' amounts, and conserves the total |
| ShoppingList.GroupMembership | backend/foodgram/api/views.py:190-192 | a triple is a group iff its (title, unit) occurs and its amount is that key's sum |
| ShoppingList.SumForPermutation | backend/foodgram/api/views.py:190-192 | per-key sums do not depend on row order |
| ShoppingList.ItemLeTransitive | backend/foodgram/api/views.py:194 | tuple order on (title, unit, amount) is transitive |
| ShoppingList.ItemLeAntisymmetric | backend/foodgram/api/views.py:194 | tuple order is antisymmetric |
| ShoppingList.InsertSorted | backend/foodgram/api/views.py:194 | inserting into a sorted list keeps it sorted |
| ShoppingList.SortSorted | backend/foodgram/api/views.py:194 | `sorted` returns a sorted list (its multiset is kept by `Sort`'s own contract) |
| ShoppingList.SortedUnique | backend/foodgram/api/views.py:194 | two sorted arrangements of the same multiset are equal |
| ShoppingList.AggregateSpec | backend/foodgram/api/views.py:188-194 | the list has one entry per distinct (title, unit) of the cart rows, each with the sum of its rows' amounts, strictly ascending by (title, unit), with the total conserved |
| ShoppingList.AggregateOrderIndependent | backend/foodgram/api/views.py:188-194 | the sorted aggregate depends only on the multiset of rows |
| ShoppingList.NumberedSnoc | backend/foodgram/api/views.py:194-196 | numbering is consecutive from 1: one more entry appends exactly one line `N. Name (unit) - total;` with N one past the entries before it |
| ShoppingList.WriteList | backend/foodgram/api/views.py:187-196 | the loop starting from the given header and appending one formatted line per entry yields the header followed by every entry numbered from 1 |
| ShoppingList.EmptyCartIsHeader | backend/foodgram/api/views.py:187-196 | an empty cart yields exactly the header |
| ShoppingList.CartDocumentOrderIndependent | backend/foodgram/api/views.py:185-196 | the document depends only on which recipes are in the user's cart and on the lines as a multiset, not on insertion order |
| Views.Without | backend/foodgram/api/views.py:115 | the filter-delete keeps exactly the rows other than the requested one |
| Views.Toggle | backend/foodgram/api/views.py:111-125 | a POST succeeds iff validation passes; a refused POST leaves the store unchanged and reports the validator's error; an accepted POST appends exactly the row; a DELETE always succeeds and removes exactly the matching rows; other tables, the catalog and the recipes never change |
| Views.Favorite | backend/foodgram/api/views.py:150-160 | acts on the requester's favorite row for the path recipe only: an unknown recipe is refused, an existing row is refused, a delete leaves no such row, and the cart, follows and recipes are untouched |
| Views.ShoppingCard | backend/foodgram/api/views.py:167-177 | the same for the requester's cart row; favorites, follows and recipes are untouched |
| Views.PostOutcome | backend/foodgram/api/views.py:116-123 | a row already present is always refused; an accepted POST adds exactly the requested row, which was absent |
| Views.AddIsStrict | backend/foodgram/api/views.py:116-123 | after a successful add, adding the same row again is refused as already added and changes nothing |
| Views.RemoveAbsentIsNoop | backend/foodgram/api/views.py:124-125 | removing a row that is not there succeeds and leaves the store unchanged |
| Views.RemoveIdempotent | backend/foodgram/api/views.py:124-125 | a second remove changes nothing more |
| Views.AddThenRemove | backend/foodgram/api/views.py:111-125 | adding a row and then removing it restores the store exactly |
| Views.ToggleValid | backend/foodgram/api/views.py:111-125 | every toggle keeps the store valid (unique pairs, existing recipes, no self-follow) |
| Views.IsFieldActionAfterToggle | backend/foodgram/api/serializers.py:14-21 | the existence check is true after a successful add and false after a remove |
| Store.Store.Create | backend/foodgram/api/serializers.py:187-194 | the result and tables are those of `CreateRecipe`, a returned id was free and its lines and links are exactly the payload's, and the store stays valid |
| Store.Store.WriteRecipe | backend/foodgram/api/serializers.py:187-194 | writing the row, the lines and then the links (refused on a repeated tag) yields `CreateRecipe`'s result and tables |
| Store.Store.Update | backend/foodgram/api/serializers.py:196-206 | the result and tables are those of `UpdateRecipe`, on success the recipe's lines and links are exactly the new ones, and the store stays valid |
| Store.Store.RewriteRecipe | backend/foodgram/api/serializers.py:196-206 | the pops, the deletes, the lines, the links (refused on a repeated tag) and the save, in that order, yield `UpdateRecipe`'s result and tables |
| Store.Store.ClearChildren | backend/foodgram/api/serializers.py:201-202 | the recipe's tag links and ingredient lines are deleted and every other row is kept in order |
| Store.Store.AddLines | backend/foodgram/api/serializers.py:24-29 | one line per payload entry is appended, in payload order; no other table changes |
| Store.Store.AddLinks | backend/foodgram/api/serializers.py:30-31 | one link per tag is appended, in payload order; no other table changes |
| Store.Store.SaveFields | backend/foodgram/api/serializers.py:206 | only the recipe with that id gets its submitted scalar fields; every other row keeps its value |
| Store.Store.Toggle | backend/foodgram/api/views.py:111-125 | the outcome and new tables are those of the toggle, and the store stays valid |
| Store.Store.Favorite | backend/foodgram/api/views.py:150-160 | the outcome and new tables are those of the favorite action |
| Store.Store.ShoppingCard | backend/foodgram/api/views.py:167-177 | the outcome and new tables are those of the cart action |
| Store.Store.DownloadShoppingCart | backend/foodgram/api/views.py:185-196 | the returned text is the document of the requester's cart |
| Store.Store.DeleteRecipe | backend/foodgram/recipes/models.py:79 | the tables become the recipe cascade's result and the store stays valid |
| Store.Store.DeleteIngredient | backend/foodgram/recipes/models.py:80 | the tables become the ingredient cascade's result and the store stays valid |
| Store.Store.DeleteTag | backend/foodgram/recipes/models.py:47 | the tables become the tag cascade's result and the store stays valid |
| Store.Store.DeleteUser | backend/foodgram/recipes/models.py:51-56 | the tables become the user cascade's result and the store stays valid |
| Store.Store.AddTag | backend/foodgram/recipes/models.py:14 | the insert succeeds iff the id and slug are free, and the store stays valid |
| Store.Store.AddIngredient | backend/foodgram/recipes/models.py:24-29 | the insert succeeds iff the id is free, and the store stays valid |

## Left out

- Authentication and account views (sign-up, confirmation, `me`, `set_password`): request plumbing, not domain logic.
- URL routing, settings, throttling, pagination, the admin registration and the `IsSuperUser` permission: framework configuration.
- Images (`Base64ImageField`, `ImageField`) and `TagListField`: api/fields.py is not part of this model. Tags are given as ids. `Store.Store.Create` and `Store.Store.Update` assume, as a precondition, that they name existing tags. Nothing assumes them distinct.
- HTTP status codes, `HttpResponse` and the `Content-Disposition` header. Only the returned text and the outcome (created, deleted or rejected with an error) are modelled.
- Transactions and check-then-insert races between concurrent requests: the store is sequential.
- Users are not a table. A user id is any natural number, and the existence of the requester or of a followed author is not checked.
- The nested read-only representations (`RecipeViewSerializer`, `SubscribeSerializer.get_recipes`, `to_representation`): they only render data.
- Validation error messages are modelled as error kinds, without their text. Newer DRF versions turn the favorite/cart unique constraints into their own unique-together check. That check refuses the same duplicate pairs, with a different message.
- Serializers.Created: the model stores the requesting user as the new recipe's author, but the source as written saves none.
  - `author` is a read-only field, so DRF leaves it out of `validated_data`. `Recipe.objects.create` therefore writes a NULL author, which models.py:51-56 allows.
  - No view passes an author to `save()`.
  - In the source, deleting a user does not reach such recipes. `Models.DeleteUser` deletes the recipes the model credits to that user.
  - For the same reason, an update never changes the author.
- Serializers.ValidateEntries: reports one error, that of the first failing entry. DRF's list serializer collects the errors of every entry, and of both fields within one entry.
- A create or update that fails part-way leaves the writes made before the failure in place, as the source does without a transaction. The recipe's lines are written before its tag links. The model writes all the links in one step and takes the database to refuse them as a whole.
- Text.Capitalize: cases only ASCII letters and the basic Cyrillic block U+0400..U+045F. Other characters have no case in the model, while Python's `capitalize` uses full Unicode case mapping.
- Integer widths: amounts, cooking times and the SQL sum are unbounded integers. The database's 32-bit `IntegerField` overflow is not modelled.
- ShoppingList.Group: the database returns GROUP BY rows in an order of its own, and the model takes the order of first occurrence. The final list is sorted, and `AggregateOrderIndependent` shows that the grouping order cannot affect it.
- Recipe `pub_date` ordering and other read-side query options are not modelled: no operation here depends on them.
