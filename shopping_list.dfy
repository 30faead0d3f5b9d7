/** The shopping list of api/views.py (`download_shopping_cart`): the lines
    of every recipe in the user's cart, joined to their ingredient, grouped
    by (title, unit) with the amounts summed, sorted, numbered from 1 and
    rendered under a fixed header. */
module ShoppingList {
  import opened Seqs
  import opened Results
  import opened Models
  import opened Text

  /** One row of the aggregate query: (ingredient title, measurement unit, amount). */
  datatype Item = Item(title: string, unit: string, amount: int)

  type Key = (string, string)

  function KeyOf(it: Item): Key { (it.title, it.unit) }

  // ---------------------------------------------------------------------
  // The query: cart recipes, their lines, joined to the ingredient catalog

  /** `user.shoppings.values_list('recipe_id')`, used as an `__in` filter. */
  function CartRecipeIds(cart: seq<Mark>, user: UserId): set<RecipeId>
  {
    set m | m in cart && m.user == user :: m.target
  }

  /** The catalog row a line's foreign key points at. */
  function FindIngredient(ingredients: seq<Ingredient>, id: IngredientId): (r: Option<Ingredient>)
    ensures r.Some? ==> r.value in ingredients && r.value.id == id
    ensures r.None? ==> id !in (set i | i in ingredients :: i.id)
  {
    if ingredients == [] then None
    else if ingredients[0].id == id then Some(ingredients[0])
    else FindIngredient(ingredients[1..], id)
  }

  /** The row one line contributes: its ingredient's (title, unit) and its
      amount when its recipe is in `ids`; nothing otherwise (an inner join
      also drops a line whose ingredient is missing). */
  function ItemsOfLine(l: Line, ingredients: seq<Ingredient>, ids: set<RecipeId>): seq<Item>
  {
    if l.recipe !in ids then []
    else match FindIngredient(ingredients, l.ingredient)
      case None => []
      case Some(i) => [Item(i.title, i.measurementUnit, l.amount)]
  }

  /** `recipe_ingredients.objects.filter(recipe_id__in=ids).values_list(title, unit)`
      with each line's amount, in table order. */
  function CartItems(lines: seq<Line>, ingredients: seq<Ingredient>, ids: set<RecipeId>): seq<Item>
  {
    if lines == [] then []
    else ItemsOfLine(lines[0], ingredients, ids) + CartItems(lines[1..], ingredients, ids)
  }

  lemma {:induction false} CartItemsAppend(a: seq<Line>, b: seq<Line>, ingredients: seq<Ingredient>, ids: set<RecipeId>)
    ensures CartItems(a + b, ingredients, ids) == CartItems(a, ingredients, ids) + CartItems(b, ingredients, ids)
  {
    if a == [] {
      assert a + b == b;
    } else {
      assert (a + b)[0] == a[0] && (a + b)[1..] == a[1..] + b;
      CartItemsAppend(a[1..], b, ingredients, ids);
    }
  }

  /** Reordering the lines table reorders the joined rows and nothing else. */
  lemma {:induction false} CartItemsPermutation(a: seq<Line>, b: seq<Line>, ingredients: seq<Ingredient>, ids: set<RecipeId>)
    requires multiset(a) == multiset(b)
    ensures multiset(CartItems(a, ingredients, ids)) == multiset(CartItems(b, ingredients, ids))
  {
    if a == [] {
      assert |b| == |multiset(b)| == 0;
    } else {
      var x := a[0];
      assert x in multiset(b);
      var j :| 0 <= j < |b| && b[j] == x;
      var rest := b[..j] + b[j + 1..];
      assert b == b[..j] + [x] + b[j + 1..];
      assert a == [x] + a[1..];
      PermutationRemove(a, b, j);
      CartItemsPermutation(a[1..], rest, ingredients, ids);
      CartItemsAppend(b[..j] + [x], b[j + 1..], ingredients, ids);
      CartItemsAppend(b[..j], [x], ingredients, ids);
      CartItemsAppend(b[..j], b[j + 1..], ingredients, ids);
      CartItemsAppend([x], a[1..], ingredients, ids);
    }
  }

  /** With no recipe selected the query returns no rows. */
  lemma {:induction false} CartItemsNoRecipes(lines: seq<Line>, ingredients: seq<Ingredient>)
    ensures CartItems(lines, ingredients, {}) == []
  {
    if lines != [] {
      CartItemsNoRecipes(lines[1..], ingredients);
    }
  }

  // ---------------------------------------------------------------------
  // GROUP BY (title, unit) with Sum('amount')

  /** The amounts of the rows with key `k`, summed. */
  function SumFor(k: Key, items: seq<Item>): int
  {
    if items == [] then 0
    else (if KeyOf(items[0]) == k then items[0].amount else 0) + SumFor(k, items[1..])
  }

  /** The amounts of all rows, summed. */
  function Total(items: seq<Item>): int
  {
    if items == [] then 0 else items[0].amount + Total(items[1..])
  }

  function Keys(items: seq<Item>): set<Key>
  {
    set it | it in items :: KeyOf(it)
  }

  lemma KeysCons(x: Item, t: seq<Item>)
    ensures Keys([x] + t) == {KeyOf(x)} + Keys(t)
  {
    assert forall y :: y in [x] + t <==> y == x || y in t;
  }

  /** Add one row to a list of groups: into the group of its key, or as a
      new group at the end. */
  function AddToGroup(groups: seq<Item>, it: Item): (r: seq<Item>)
    ensures Keys(r) == Keys(groups) + {KeyOf(it)}
    ensures forall k :: SumFor(k, r) == SumFor(k, groups) + (if KeyOf(it) == k then it.amount else 0)
    ensures Total(r) == Total(groups) + it.amount
  {
    if groups == [] then [it]
    else if KeyOf(groups[0]) == KeyOf(it) then
      var r := [groups[0].(amount := groups[0].amount + it.amount)] + groups[1..];
      assert r[0] == groups[0].(amount := groups[0].amount + it.amount) && r[1..] == groups[1..];
      assert groups == [groups[0]] + groups[1..];
      KeysCons(r[0], groups[1..]);
      KeysCons(groups[0], groups[1..]);
      r
    else
      var r := [groups[0]] + AddToGroup(groups[1..], it);
      assert r[0] == groups[0] && r[1..] == AddToGroup(groups[1..], it);
      assert groups == [groups[0]] + groups[1..];
      KeysCons(r[0], r[1..]);
      KeysCons(groups[0], groups[1..]);
      r
  }

  /** A list with distinct keys: its tail has distinct keys, none of them the head's. */
  lemma UniqueTail(s: seq<Item>)
    requires UniqueBy(s, KeyOf) && s != []
    ensures UniqueBy(s[1..], KeyOf) && KeyOf(s[0]) !in Keys(s[1..])
  {
    var tail := s[1..];
    forall i, j | 0 <= i < j < |tail| ensures KeyOf(tail[i]) != KeyOf(tail[j]) {
      assert tail[i] == s[i + 1] && tail[j] == s[j + 1];
    }
    forall x | x in tail ensures KeyOf(x) != KeyOf(s[0]) {
      var k :| 0 <= k < |tail| && tail[k] == x;
      assert s[k + 1] == x;
    }
  }

  /** A row whose key is new in front of a list with distinct keys. */
  lemma UniqueCons(x: Item, t: seq<Item>)
    requires UniqueBy(t, KeyOf) && KeyOf(x) !in Keys(t)
    ensures UniqueBy([x] + t, KeyOf)
  {
    var r := [x] + t;
    forall i, j | 0 <= i < j < |r| ensures KeyOf(r[i]) != KeyOf(r[j]) {
      assert r[j] == t[j - 1];
      if i == 0 {
        assert r[j] in t;
      } else {
        assert r[i] == t[i - 1];
      }
    }
  }

  lemma {:induction false} AddToGroupUnique(groups: seq<Item>, it: Item)
    requires UniqueBy(groups, KeyOf)
    ensures UniqueBy(AddToGroup(groups, it), KeyOf)
  {
    if groups == [] {
    } else {
      UniqueTail(groups);
      var tail := groups[1..];
      if KeyOf(groups[0]) == KeyOf(it) {
        UniqueCons(groups[0].(amount := groups[0].amount + it.amount), tail);
      } else {
        AddToGroupUnique(tail, it);
        UniqueCons(groups[0], AddToGroup(tail, it));
      }
    }
  }

  /** Fold the rows into `acc`, one `AddToGroup` at a time. */
  function GroupInto(acc: seq<Item>, items: seq<Item>): (r: seq<Item>)
    ensures Keys(r) == Keys(acc) + Keys(items)
    ensures forall k :: SumFor(k, r) == SumFor(k, acc) + SumFor(k, items)
    ensures Total(r) == Total(acc) + Total(items)
    decreases items
  {
    if items == [] then acc
    else
      assert Keys(items) == {KeyOf(items[0])} + Keys(items[1..]);
      GroupInto(AddToGroup(acc, items[0]), items[1..])
  }

  lemma {:induction false} GroupIntoUnique(acc: seq<Item>, items: seq<Item>)
    requires UniqueBy(acc, KeyOf)
    ensures UniqueBy(GroupInto(acc, items), KeyOf)
    decreases items
  {
    if items != [] {
      AddToGroupUnique(acc, items[0]);
      GroupIntoUnique(AddToGroup(acc, items[0]), items[1..]);
    }
  }

  /** In a list of groups the sum for a group's key is that group's amount. */
  lemma {:induction false} SumForUnique(groups: seq<Item>, x: Item)
    requires UniqueBy(groups, KeyOf) && x in groups
    ensures SumFor(KeyOf(x), groups) == x.amount
  {
    var tail := groups[1..];
    assert UniqueBy(tail, KeyOf) by {
      forall i, j | 0 <= i < j < |tail| ensures KeyOf(tail[i]) != KeyOf(tail[j]) {
        assert tail[i] == groups[i + 1] && tail[j] == groups[j + 1];
      }
    }
    if groups[0] == x {
      SumForAbsent(tail, KeyOf(x));
      forall y | y in tail ensures KeyOf(y) != KeyOf(x) {
        var k :| 0 <= k < |tail| && tail[k] == y;
        assert groups[k + 1] == y;
      }
    } else {
      var k :| 0 <= k < |groups| && groups[k] == x;
      assert KeyOf(groups[0]) != KeyOf(x);
      assert tail[k - 1] == x;
      SumForUnique(tail, x);
    }
  }

  lemma {:induction false} SumForAbsent(items: seq<Item>, k: Key)
    requires forall y :: y in items ==> KeyOf(y) != k
    ensures SumFor(k, items) == 0
  {
    if items != [] {
      SumForAbsent(items[1..], k);
    }
  }

  /** `.values_list('ingredients__title', 'ingredients__measurement').annotate(Sum('amount'))`:
      one group per (title, unit). The database returns groups in an order
      of its own; this model takes the order of first occurrence. */
  function Group(items: seq<Item>): seq<Item>
  {
    GroupInto([], items)
  }

  /** Grouping keeps one group per distinct (title, unit), each carrying the
      sum of the amounts of its rows, and conserves the overall sum. */
  lemma GroupSpec(items: seq<Item>)
    ensures UniqueBy(Group(items), KeyOf)
    ensures Keys(Group(items)) == Keys(items)
    ensures forall g :: g in Group(items) ==> g.amount == SumFor(KeyOf(g), items)
    ensures Total(Group(items)) == Total(items)
  {
    var g := Group(items);
    GroupIntoUnique([], items);
    forall x | x in g ensures x.amount == SumFor(KeyOf(x), items) {
      SumForUnique(g, x);
    }
  }

  /** Which rows are groups: exactly the (title, unit, sum) triples of the keys present. */
  lemma GroupMembership(items: seq<Item>, x: Item)
    ensures x in Group(items) <==> KeyOf(x) in Keys(items) && x.amount == SumFor(KeyOf(x), items)
  {
    GroupSpec(items);
    var g := Group(items);
    if KeyOf(x) in Keys(items) && x.amount == SumFor(KeyOf(x), items) {
      assert KeyOf(x) in Keys(g);
      var y :| y in g && KeyOf(y) == KeyOf(x);
      assert y == x;
    }
  }

  lemma {:induction false} SumForAppend(k: Key, a: seq<Item>, b: seq<Item>)
    ensures SumFor(k, a + b) == SumFor(k, a) + SumFor(k, b)
  {
    if a == [] {
      assert a + b == b;
    } else {
      assert (a + b)[0] == a[0] && (a + b)[1..] == a[1..] + b;
      SumForAppend(k, a[1..], b);
    }
  }

  /** Sums per key do not depend on the order of the rows. */
  lemma {:induction false} SumForPermutation(k: Key, a: seq<Item>, b: seq<Item>)
    requires multiset(a) == multiset(b)
    ensures SumFor(k, a) == SumFor(k, b)
  {
    if a == [] {
      assert |b| == |multiset(b)| == 0;
    } else {
      var x := a[0];
      assert x in multiset(b);
      var j :| 0 <= j < |b| && b[j] == x;
      var rest := b[..j] + b[j + 1..];
      assert b == b[..j] + [x] + b[j + 1..];
      assert a == [x] + a[1..];
      PermutationRemove(a, b, j);
      SumForPermutation(k, a[1..], rest);
      SumForAppend(k, b[..j] + [x], b[j + 1..]);
      SumForAppend(k, b[..j], [x]);
      SumForAppend(k, b[..j], b[j + 1..]);
    }
  }

  // ---------------------------------------------------------------------
  // sorted(): Python's ordering of (title, unit, sum) tuples

  predicate ItemLe(a: Item, b: Item)
  {
    || StrLess(a.title, b.title)
    || (a.title == b.title && (StrLess(a.unit, b.unit) || (a.unit == b.unit && a.amount <= b.amount)))
  }

  lemma ItemLeTotal(a: Item, b: Item)
    ensures ItemLe(a, b) || ItemLe(b, a)
  {
    StrLessTotal(a.title, b.title);
    StrLessTotal(a.unit, b.unit);
  }

  lemma ItemLeTransitive(a: Item, b: Item, c: Item)
    requires ItemLe(a, b) && ItemLe(b, c)
    ensures ItemLe(a, c)
  {
    if StrLess(a.title, b.title) && StrLess(b.title, c.title) {
      StrLessTransitive(a.title, b.title, c.title);
    }
    if a.title == b.title == c.title && StrLess(a.unit, b.unit) && StrLess(b.unit, c.unit) {
      StrLessTransitive(a.unit, b.unit, c.unit);
    }
  }

  lemma ItemLeAntisymmetric(a: Item, b: Item)
    requires ItemLe(a, b) && ItemLe(b, a)
    ensures a == b
  {
    StrLessIrreflexive(a.title);
    StrLessIrreflexive(a.unit);
    if StrLess(a.title, b.title) && StrLess(b.title, a.title) {
      StrLessTransitive(a.title, b.title, a.title);
    }
    if a.title == b.title && StrLess(a.unit, b.unit) && StrLess(b.unit, a.unit) {
      StrLessTransitive(a.unit, b.unit, a.unit);
    }
  }

  ghost predicate Sorted(s: seq<Item>)
  {
    forall i, j :: 0 <= i < j < |s| ==> ItemLe(s[i], s[j])
  }

  function Insert(x: Item, s: seq<Item>): (r: seq<Item>)
    ensures multiset(r) == multiset(s) + multiset{x}
  {
    if s == [] then [x]
    else if ItemLe(x, s[0]) then [x] + s
    else
      assert s == [s[0]] + s[1..];
      [s[0]] + Insert(x, s[1..])
  }

  /** A list that starts with a lower bound of a sorted list is sorted. */
  lemma ConsSorted(y: Item, t: seq<Item>)
    requires Sorted(t) && forall z :: z in t ==> ItemLe(y, z)
    ensures Sorted([y] + t)
  {
    var r := [y] + t;
    forall i, j | 0 <= i < j < |r| ensures ItemLe(r[i], r[j]) {
      assert r[j] == t[j - 1];
      if i > 0 {
        assert r[i] == t[i - 1];
      }
    }
  }

  /** A lower bound of `x` and of `s` bounds `Insert(x, s)` too. */
  lemma InsertBound(y: Item, x: Item, s: seq<Item>)
    requires ItemLe(y, x) && forall z :: z in s ==> ItemLe(y, z)
    ensures forall z :: z in Insert(x, s) ==> ItemLe(y, z)
  {
    forall z | z in Insert(x, s) ensures ItemLe(y, z) {
      assert z in multiset(Insert(x, s));
      assert z == x || z in multiset(s);
    }
  }

  lemma {:induction false} InsertSorted(x: Item, s: seq<Item>)
    requires Sorted(s)
    ensures Sorted(Insert(x, s))
  {
    if s == [] {
    } else {
      assert s == [s[0]] + s[1..];
      assert Sorted(s[1..]);
      assert forall z :: z in s[1..] ==> ItemLe(s[0], z);
      if ItemLe(x, s[0]) {
        forall z | z in s ensures ItemLe(x, z) {
          if z != s[0] {
            ItemLeTransitive(x, s[0], z);
          }
        }
        ConsSorted(x, s);
      } else {
        ItemLeTotal(x, s[0]);
        InsertSorted(x, s[1..]);
        InsertBound(s[0], x, s[1..]);
        ConsSorted(s[0], Insert(x, s[1..]));
      }
    }
  }

  /** `sorted(...)`: insertion sort on Python's tuple order. */
  function Sort(s: seq<Item>): (r: seq<Item>)
    ensures multiset(r) == multiset(s)
  {
    if s == [] then []
    else
      assert s == [s[0]] + s[1..];
      Insert(s[0], Sort(s[1..]))
  }

  lemma {:induction false} SortSorted(s: seq<Item>)
    ensures Sorted(Sort(s))
  {
    if s != [] {
      SortSorted(s[1..]);
      InsertSorted(s[0], Sort(s[1..]));
    }
  }

  /** Two sorted arrangements of one multiset start with the same row. */
  lemma SortedHeads(a: seq<Item>, b: seq<Item>)
    requires Sorted(a) && Sorted(b) && multiset(a) == multiset(b) && a != []
    ensures b != [] && a[0] == b[0]
  {
    assert a[0] in multiset(b);
    var j :| 0 <= j < |b| && b[j] == a[0];
    assert b[0] in multiset(a);
    var i :| 0 <= i < |a| && a[i] == b[0];
    assert ItemLe(a[0], b[0]) by { if i > 0 { assert ItemLe(a[0], a[i]); } }
    assert ItemLe(b[0], a[0]) by { if j > 0 { assert ItemLe(b[0], b[j]); } }
    ItemLeAntisymmetric(a[0], b[0]);
  }

  lemma SortedTail(s: seq<Item>)
    requires Sorted(s) && s != []
    ensures Sorted(s[1..])
  {
    forall i, j | 0 <= i < j < |s| - 1 ensures ItemLe(s[1..][i], s[1..][j]) {
      assert s[1..][i] == s[i + 1] && s[1..][j] == s[j + 1];
    }
  }

  /** A sorted arrangement of a multiset is unique. */
  lemma {:induction false} SortedUnique(a: seq<Item>, b: seq<Item>)
    requires Sorted(a) && Sorted(b) && multiset(a) == multiset(b)
    ensures a == b
    decreases |a|
  {
    if a == [] {
      assert |b| == |multiset(b)| == 0;
    } else {
      SortedHeads(a, b);
      PermutationRemove(a, b, 0);
      assert b[..0] + b[1..] == b[1..];
      SortedTail(a);
      SortedTail(b);
      SortedUnique(a[1..], b[1..]);
      assert a == [a[0]] + a[1..] && b == [b[0]] + b[1..];
    }
  }

  // ---------------------------------------------------------------------
  // The aggregate: grouped, then sorted

  function Aggregate(items: seq<Item>): seq<Item>
  {
    Sort(Group(items))
  }

  /** In a list with distinct keys no row occurs twice. */
  lemma {:induction false} UniqueKeysCount(g: seq<Item>, x: Item)
    requires UniqueBy(g, KeyOf)
    ensures multiset(g)[x] == if x in g then 1 else 0
  {
    if g != [] {
      var tail := g[1..];
      assert g == [g[0]] + tail;
      assert UniqueBy(tail, KeyOf) by {
        forall i, j | 0 <= i < j < |tail| ensures KeyOf(tail[i]) != KeyOf(tail[j]) {
          assert tail[i] == g[i + 1] && tail[j] == g[j + 1];
        }
      }
      UniqueKeysCount(tail, x);
      if g[0] == x {
        forall k | 0 <= k < |tail| ensures tail[k] != x {
          assert g[k + 1] == tail[k];
        }
      }
    }
  }

  /** A rearrangement of a list with distinct keys has distinct keys. */
  lemma PermutationUniqueKeys(s: seq<Item>, g: seq<Item>)
    requires UniqueBy(g, KeyOf) && multiset(s) == multiset(g)
    ensures UniqueBy(s, KeyOf)
  {
    forall i, j | 0 <= i < j < |s| ensures KeyOf(s[i]) != KeyOf(s[j]) {
      if KeyOf(s[i]) == KeyOf(s[j]) {
        assert s[i] in multiset(g) && s[j] in multiset(g);
        var p :| 0 <= p < |g| && g[p] == s[i];
        var q :| 0 <= q < |g| && g[q] == s[j];
        assert p == q;
        assert s == s[..i] + [s[i]] + s[i + 1..j] + [s[j]] + s[j + 1..];
        assert multiset(s)[s[i]] >= 2;
        UniqueKeysCount(g, s[i]);
        assert false;
      }
    }
  }

  predicate KeyLess(a: Key, b: Key)
  {
    StrLess(a.0, b.0) || (a.0 == b.0 && StrLess(a.1, b.1))
  }

  /** The shopping list has one entry per distinct (title, unit) of the cart
      rows, each with the sum of its rows' amounts, in strictly ascending
      (title, unit) order, and its amounts add up to those of the rows. */
  lemma AggregateSpec(items: seq<Item>)
    ensures var r := Aggregate(items);
      && Keys(r) == Keys(items)
      && (forall e :: e in r ==> e.amount == SumFor(KeyOf(e), items))
      && (forall i, j :: 0 <= i < j < |r| ==> KeyLess(KeyOf(r[i]), KeyOf(r[j])))
      && Total(r) == Total(items)
  {
    var g := Group(items);
    var r := Sort(g);
    GroupSpec(items);
    SortSorted(g);
    PermutationUniqueKeys(r, g);
    assert forall x :: x in r <==> x in g by {
      forall x ensures x in r <==> x in g {
        assert x in r <==> x in multiset(r);
        assert x in g <==> x in multiset(g);
      }
    }
    forall i, j | 0 <= i < j < |r| ensures KeyLess(KeyOf(r[i]), KeyOf(r[j])) {
      assert ItemLe(r[i], r[j]);
    }
    TotalPermutation(r, g);
  }

  lemma {:induction false} TotalAppend(a: seq<Item>, b: seq<Item>)
    ensures Total(a + b) == Total(a) + Total(b)
  {
    if a == [] {
      assert a + b == b;
    } else {
      assert (a + b)[0] == a[0] && (a + b)[1..] == a[1..] + b;
      TotalAppend(a[1..], b);
    }
  }

  lemma {:induction false} TotalPermutation(a: seq<Item>, b: seq<Item>)
    requires multiset(a) == multiset(b)
    ensures Total(a) == Total(b)
  {
    if a == [] {
      assert |b| == |multiset(b)| == 0;
    } else {
      var x := a[0];
      assert x in multiset(b);
      var j :| 0 <= j < |b| && b[j] == x;
      var rest := b[..j] + b[j + 1..];
      assert b == b[..j] + [x] + b[j + 1..];
      assert a == [x] + a[1..];
      PermutationRemove(a, b, j);
      TotalPermutation(a[1..], rest);
      TotalAppend(b[..j] + [x], b[j + 1..]);
      TotalAppend(b[..j], [x]);
      TotalAppend(b[..j], b[j + 1..]);
    }
  }

  /** The shopping list does not depend on the order of the joined rows. */
  lemma AggregateOrderIndependent(a: seq<Item>, b: seq<Item>)
    requires multiset(a) == multiset(b)
    ensures Aggregate(a) == Aggregate(b)
  {
    var ga, gb := Group(a), Group(b);
    GroupSpec(a);
    GroupSpec(b);
    assert Keys(a) == Keys(b) by {
      forall x ensures x in a <==> x in b {
        assert x in a <==> x in multiset(a);
        assert x in b <==> x in multiset(b);
      }
    }
    forall x ensures multiset(ga)[x] == multiset(gb)[x] {
      GroupMembership(a, x);
      GroupMembership(b, x);
      SumForPermutation(KeyOf(x), a, b);
      UniqueKeysCount(ga, x);
      UniqueKeysCount(gb, x);
    }
    assert multiset(ga) == multiset(gb);
    SortSorted(ga);
    SortSorted(gb);
    SortedUnique(Sort(ga), Sort(gb));
  }

  // ---------------------------------------------------------------------
  // Rendering

  /** The fixed first line of the document (its first letter is a Latin C). */
  const Header: string := "C\U{43F}\U{438}\U{441}\U{43E}\U{43A} \U{43F}\U{43E}\U{43A}\U{443}\U{43F}\U{43E}\U{43A}: \n"

  /** `f'{index}. {title.capitalize()} ({unit}) - {total};\n'`. */
  function FormatLine(index: nat, it: Item): string
  {
    NatToString(index) + ". " + Capitalize(it.title) + " (" + it.unit + ") - " + IntToString(it.amount) + ";\n"
  }

  /** `enumerate(..., start=1)`: entry i gets number i + 1. */
  function NumberedLines(entries: seq<Item>): (r: seq<string>)
    ensures |r| == |entries|
    ensures forall i :: 0 <= i < |r| ==> r[i] == FormatLine(i + 1, entries[i])
  {
    seq(|entries|, i requires 0 <= i < |entries| => FormatLine(i + 1, entries[i]))
  }

  /** The parts joined in order (`text += ...`). */
  function Concat(parts: seq<string>): string
  {
    if parts == [] then "" else Concat(parts[..|parts| - 1]) + parts[|parts| - 1]
  }

  /** The numbered lines of a list of entries, joined. */
  function Numbered(entries: seq<Item>): string
  {
    Concat(NumberedLines(entries))
  }

  /** Numbering is consecutive: one more entry adds one line, numbered one
      past the entries before it. */
  lemma {:induction false} NumberedSnoc(entries: seq<Item>, e: Item)
    ensures Numbered(entries + [e]) == Numbered(entries) + FormatLine(|entries| + 1, e)
  {
    var parts := NumberedLines(entries + [e]);
    assert parts == NumberedLines(entries) + [FormatLine(|entries| + 1, e)];
    assert parts[..|parts| - 1] == NumberedLines(entries);
  }

  /** One step of the loop below: appending entry i's line to the text for
      the first i entries gives the text for the first i + 1. */
  lemma WriteStep(header: string, entries: seq<Item>, i: nat)
    requires i < |entries|
    ensures header + Numbered(entries[..i + 1]) == (header + Numbered(entries[..i])) + FormatLine(i + 1, entries[i])
  {
    assert entries[..i + 1] == entries[..i] + [entries[i]];
    NumberedSnoc(entries[..i], entries[i]);
    assert (header + Numbered(entries[..i])) + FormatLine(i + 1, entries[i])
        == header + (Numbered(entries[..i]) + FormatLine(i + 1, entries[i]));
  }

  /** The loop of `download_shopping_cart`: start from the header and append
      one formatted line per entry, numbering from 1. */
  method WriteList(header: string, entries: seq<Item>) returns (text: string)
    ensures text == header + Numbered(entries)
  {
    text := header;
    assert NumberedLines([]) == [];
    for i := 0 to |entries|
      invariant text == header + Numbered(entries[..i])
    {
      WriteStep(header, entries, i);
      text := text + FormatLine(i + 1, entries[i]);
    }
    assert entries[..|entries|] == entries;
  }

  /** The whole document for a list of joined rows. */
  function Document(items: seq<Item>): string
  {
    Header + Numbered(Aggregate(items))
  }

  /** The document for one user's cart in a store. */
  function CartDocument(db: Db, user: UserId): string
  {
    Document(CartItems(db.lines, db.ingredients, CartRecipeIds(db.cart, user)))
  }

  /** An empty cart yields exactly the header. */
  lemma {:induction false} EmptyCartIsHeader(db: Db, user: UserId)
    requires forall m :: m in db.cart ==> m.user != user
    ensures CartDocument(db, user) == Header
  {
    assert CartRecipeIds(db.cart, user) == {};
    CartItemsNoRecipes(db.lines, db.ingredients);
    assert Aggregate([]) == [];
    assert NumberedLines([]) == [];
  }

  /** The document depends only on which recipes are in the cart and on the
      lines as a multiset: not on the order rows were inserted in. */
  lemma CartDocumentOrderIndependent(db1: Db, db2: Db, user: UserId)
    requires db1.ingredients == db2.ingredients
    requires multiset(db1.lines) == multiset(db2.lines)
    requires forall r :: Mark(user, r) in db1.cart <==> Mark(user, r) in db2.cart
    ensures CartDocument(db1, user) == CartDocument(db2, user)
  {
    var ids := CartRecipeIds(db1.cart, user);
    assert CartRecipeIds(db2.cart, user) == ids by {
      forall r ensures r in CartRecipeIds(db2.cart, user) <==> r in ids {
        assert r in ids <==> Mark(user, r) in db1.cart;
        assert r in CartRecipeIds(db2.cart, user) <==> Mark(user, r) in db2.cart;
      }
    }
    CartItemsPermutation(db1.lines, db2.lines, db1.ingredients, ids);
    AggregateOrderIndependent(CartItems(db1.lines, db1.ingredients, ids), CartItems(db2.lines, db2.ingredients, ids));
  }
}
