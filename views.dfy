/** The relation endpoints of api/views.py: `add_del_obj_action` and the
    `favorite` and `shopping_card` actions built on it. */
module Views {
  import opened Seqs
  import opened Results
  import opened Models
  import opened Serializers

  /** The request method: POST adds, every other allowed method (DELETE) removes. */
  datatype Verb = Post | Delete

  /** What the endpoint answers: the saved row (201), an empty success (204)
      or the validation error (400). */
  datatype Outcome = Created(row: Mark) | Deleted | Rejected(error: Error)

  /** The table of `rel` without the rows matching `row` (`filter(**data).delete()`). */
  function Without(table: seq<Mark>, row: Mark): (r: seq<Mark>)
    ensures forall m :: m in r <==> m in table && m != row
  {
    Filter((m: Mark) => m != row, table)
  }

  /** `add_del_obj_action`: a POST runs the relation's serializer and saves
      the row only when it is valid; any other method deletes the matching
      rows, whether or not there are any. */
  function Toggle(db: Db, rel: Relation, verb: Verb, row: Mark): (r: (Outcome, Db))
    ensures verb == Post ==> (r.0.Created? <==> ValidateRelation(db, rel, row).Ok?)
    ensures r.0.Rejected? ==>
      verb == Post && ValidateRelation(db, rel, row).Err? && r.0.error == ValidateRelation(db, rel, row).error && r.1 == db
    ensures r.0.Created? ==> r.0.row == row && Table(r.1, rel) == Table(db, rel) + [row]
    ensures verb == Delete <==> r.0.Deleted?
    ensures verb == Delete ==> forall m :: m in Table(r.1, rel) <==> m in Table(db, rel) && m != row
    ensures forall other :: other != rel ==> Table(r.1, other) == Table(db, other)
    ensures r.1.tags == db.tags && r.1.ingredients == db.ingredients && r.1.recipes == db.recipes
    ensures r.1.lines == db.lines && r.1.tagLinks == db.tagLinks && r.1.nextId == db.nextId
  {
    match verb
    case Post =>
      (match ValidateRelation(db, rel, row)
       case Ok(m) => (Created(m), WithTable(db, rel, Table(db, rel) + [m]))
       case Err(e) => (Rejected(e), db))
    case Delete => (Deleted, WithTable(db, rel, Without(Table(db, rel), row)))
  }

  /** `RecipesViewSet.favorite`: the toggle on favorites for (requester, recipe). */
  function Favorite(db: Db, requester: UserId, recipe: RecipeId, verb: Verb): (r: (Outcome, Db))
    ensures r.1.cart == db.cart && r.1.follows == db.follows && r.1.recipes == db.recipes
    ensures forall m :: m != Mark(requester, recipe) ==> (m in r.1.favorites <==> m in db.favorites)
    ensures verb == Post && recipe !in RecipeIds(db) ==> r == (Rejected(UnknownRecipe), db)
    ensures verb == Post && recipe in RecipeIds(db) ==>
      (r.0.Created? <==> Mark(requester, recipe) !in db.favorites)
    ensures verb == Post && recipe in RecipeIds(db) && Mark(requester, recipe) in db.favorites ==>
      r == (Rejected(AlreadyAdded(FavoriteRel)), db)
    ensures r.0.Created? ==> r.0.row == Mark(requester, recipe) && r.0.row in r.1.favorites
    ensures r.0.Rejected? ==> r.1 == db
    ensures verb == Delete ==> r.0 == Deleted && Mark(requester, recipe) !in r.1.favorites
  {
    Toggle(db, FavoriteRel, verb, Mark(requester, recipe))
  }

  /** `RecipesViewSet.shopping_card`: the toggle on the cart for (requester, recipe). */
  function ShoppingCard(db: Db, requester: UserId, recipe: RecipeId, verb: Verb): (r: (Outcome, Db))
    ensures r.1.favorites == db.favorites && r.1.follows == db.follows && r.1.recipes == db.recipes
    ensures forall m :: m != Mark(requester, recipe) ==> (m in r.1.cart <==> m in db.cart)
    ensures verb == Post && recipe !in RecipeIds(db) ==> r == (Rejected(UnknownRecipe), db)
    ensures verb == Post && recipe in RecipeIds(db) ==>
      (r.0.Created? <==> Mark(requester, recipe) !in db.cart)
    ensures verb == Post && recipe in RecipeIds(db) && Mark(requester, recipe) in db.cart ==>
      r == (Rejected(AlreadyAdded(CartRel)), db)
    ensures r.0.Created? ==> r.0.row == Mark(requester, recipe) && r.0.row in r.1.cart
    ensures r.0.Rejected? ==> r.1 == db
    ensures verb == Delete ==> r.0 == Deleted && Mark(requester, recipe) !in r.1.cart
  {
    Toggle(db, CartRel, verb, Mark(requester, recipe))
  }

  // ---------------------------------------------------------------------
  // Properties of the toggle

  /** A POST that is refused leaves the store unchanged; one that is accepted
      adds exactly the requested row, which was not there before. */
  lemma PostOutcome(db: Db, rel: Relation, row: Mark)
    ensures var (o, d) := Toggle(db, rel, Post, row);
      && (o.Rejected? ==> d == db)
      && (o.Created? ==> o.row == row && row !in Table(db, rel) && Table(d, rel) == Table(db, rel) + [row])
      && (row in Table(db, rel) ==> o.Rejected?)
  {
  }

  /** Adding is strict: once a row is added, adding it again is refused with
      "already added" and changes nothing. */
  lemma AddIsStrict(db: Db, rel: Relation, row: Mark)
    requires Toggle(db, rel, Post, row).0.Created?
    ensures var d := Toggle(db, rel, Post, row).1;
      Toggle(d, rel, Post, row) == (Rejected(AlreadyAdded(rel)), d)
  {
    var d := Toggle(db, rel, Post, row).1;
    assert row in Table(d, rel);
    if rel != FollowRel {
      assert row.target in RecipeIds(d);
    }
  }

  /** Removing a row that is not there succeeds and changes nothing. */
  lemma RemoveAbsentIsNoop(db: Db, rel: Relation, row: Mark)
    requires row !in Table(db, rel)
    ensures Toggle(db, rel, Delete, row) == (Deleted, db)
  {
    FilterKeepsAll((m: Mark) => m != row, Table(db, rel));
    match rel
    case FavoriteRel =>
    case CartRel =>
    case FollowRel =>
  }

  /** Removing is idempotent: a second remove changes nothing more. */
  lemma RemoveIdempotent(db: Db, rel: Relation, row: Mark)
    ensures var d := Toggle(db, rel, Delete, row).1;
      Toggle(d, rel, Delete, row) == (Deleted, d)
  {
    var d := Toggle(db, rel, Delete, row).1;
    RemoveAbsentIsNoop(d, rel, row);
  }

  /** Adding a row and then removing it restores the store. */
  lemma AddThenRemove(db: Db, rel: Relation, row: Mark)
    requires Toggle(db, rel, Post, row).0.Created?
    ensures Toggle(Toggle(db, rel, Post, row).1, rel, Delete, row).1 == db
  {
    var t := Table(db, rel);
    var p := (m: Mark) => m != row;
    FilterAppend(p, t, [row]);
    FilterKeepsAll(p, t);
    assert Filter(p, [row]) == [];
    match rel
    case FavoriteRel =>
    case CartRel =>
    case FollowRel =>
  }

  /** Replacing the table of `rel` keeps the store's invariants when the new
      rows have unique (user, target) pairs, cart and favorite rows name
      existing recipes, and no follow row is a self-follow. */
  lemma TableValid(db: Db, rel: Relation, rows: seq<Mark>)
    requires Valid(db) && UniqueBy(rows, MarkKey)
    requires rel != FollowRel ==> forall m :: m in rows ==> m.target in RecipeIds(db)
    requires rel == FollowRel ==> forall m :: m in rows ==> m.user != m.target
    ensures Valid(WithTable(db, rel, rows))
  {
    var d := WithTable(db, rel, rows);
    assert RecipeIds(d) == RecipeIds(db) && TagIds(d) == TagIds(db) && IngredientIds(d) == IngredientIds(db);
  }

  /** Appending a row whose pair is new keeps the pairs unique. */
  lemma AppendUnique(t: seq<Mark>, row: Mark)
    requires UniqueBy(t, MarkKey) && row !in t
    ensures UniqueBy(t + [row], MarkKey)
  {
    var u := t + [row];
    forall i, j | 0 <= i < j < |u| ensures MarkKey(u[i]) != MarkKey(u[j]) {
      if j == |t| {
        assert u[i] in t;
      } else {
        assert u[i] == t[i] && u[j] == t[j];
      }
    }
  }

  /** Every toggle keeps the store's invariants: the (user, target) pairs stay
      unique, cart and favorite rows name existing recipes, and nobody
      follows themself. */
  lemma ToggleValid(db: Db, rel: Relation, verb: Verb, row: Mark)
    requires Valid(db)
    ensures Valid(Toggle(db, rel, verb, row).1)
  {
    var t := Table(db, rel);
    if verb == Delete {
      var rows := Without(t, row);
      FilterUnique((m: Mark) => m != row, t, MarkKey);
      TableValid(db, rel, rows);
    } else if ValidateRelation(db, rel, row).Ok? {
      AppendUnique(t, row);
      TableValid(db, rel, t + [row]);
    }
  }

  /** `get_is_field_action` after a toggle: true once the row is added, false
      once it is removed. */
  lemma IsFieldActionAfterToggle(db: Db, rel: Relation, user: UserId, target: nat)
    ensures var row := Mark(user, target);
      && (Toggle(db, rel, Post, row).0.Created? ==>
            IsFieldAction(Some(user), Table(Toggle(db, rel, Post, row).1, rel), target))
      && !IsFieldAction(Some(user), Table(Toggle(db, rel, Delete, row).1, rel), target)
  {
  }
}
