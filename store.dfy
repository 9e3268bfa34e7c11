/** The relational store behind the API views, as one object whose fields are
    the tables. Its invariant `Valid` collects the model constraints (field
    validators, unique and check constraints, foreign keys); every view that
    writes is a method whose postcondition gives the whole new state, and the
    lemmas before the class show that each such change keeps the constraints. */
module Store {
  import opened Collections
  import opened Decimal
  import opened Strings
  import opened UserModels
  import opened RecipeModels
  import opened RecipeWrite
  import opened ShoppingList

  /** The contents of every table at one moment. */
  datatype State = State(
    users: map<UserId, User>,
    ingredients: map<IngredientId, Ingredient>,
    tags: map<TagId, Tag>,
    recipes: map<RecipeId, Recipe>,
    rows: seq<RecipeIngredient>,
    favorites: seq<(UserId, RecipeId)>,
    cart: seq<(UserId, RecipeId)>,
    subscriptions: seq<(UserId, UserId)>)

  /** Every constraint the models declare holds. */
  predicate StateValid(s: State, b: Bounds)
  {
    && b.Valid()
    && UsersValid(s.users)
    && IngredientNamesUnique(s.ingredients)
    && SlugsUnique(s.tags)
    && RecipesValid(s.recipes, s.users.Keys, s.tags.Keys, b)
    && RowsValid(s.rows, s.recipes.Keys, s.ingredients.Keys, b)
    && PairsValid(s.favorites, s.users.Keys, s.recipes.Keys)
    && PairsValid(s.cart, s.users.Keys, s.recipes.Keys)
    && SubscriptionsValid(s.subscriptions, s.users.Keys)
  }

  /** Every primary key handed out so far is below `next`. */
  predicate IdsBelow(s: State, next: nat)
  {
    && (forall id | id in s.users :: id < next)
    && (forall id | id in s.ingredients :: id < next)
    && (forall id | id in s.tags :: id < next)
    && (forall id | id in s.recipes :: id < next)
  }

  datatype Verb = Post | Delete

  datatype ToggleError =
    | NotFound            // get_object_or_404, or an unknown user id
    | SelfSubscription    // following oneself
    | AlreadySubscribed
    | NotSubscribed
    | AlreadyInCart
    | NotInCart
    | AlreadyFavorited
    | NotFavorited

  datatype Response = Created | NoContent | Rejected(error: ToggleError)

  /** The HTTP status of a toggle response: 404 for a missing object, 400 for
      every other rejection. */
  function StatusCode(r: Response): (code: int)
    ensures code == 404 <==> r == Rejected(NotFound)
    ensures code == 400 <==> r.Rejected? && r.error != NotFound
    ensures code == 201 <==> r.Created?
    ensures code == 204 <==> r.NoContent?
  {
    match r
    case Created => 201
    case NoContent => 204
    case Rejected(NotFound) => 404
    case Rejected(_) => 400
  }

  datatype UpdateOutcome = Updated | Invalid(errors: seq<WriteError>) | RecipeNotFound

  datatype ShortLink = Redirect(location: string) | LinkNotFound

  /** The recipe after `update`: tags replaced, and every field present in the
      payload written over the old value (name and text as trimmed). */
  function Patched(r: Recipe, p: Patch): Recipe
    requires p.tags.Some?
  {
    r.(name := if p.name.Some? then Trim(p.name.value) else r.name,
       text := if p.text.Some? then Trim(p.text.value) else r.text,
       cookingTime := if p.cookingTime.Some? then p.cookingTime.value else r.cookingTime,
       image := if p.image.Some? && p.image.value.Some? then p.image.value.value else r.image,
       tags := Elements(p.tags.value))
  }

  /** The join rows after `update` of recipe `id`: its old rows deleted, one new
      row per entry appended. */
  function ReplacedRows(rows: seq<RecipeIngredient>, id: RecipeId, entries: seq<IngredientEntry>): seq<RecipeIngredient>
    requires forall k | 0 <= k < |entries| :: entries[k].amount >= 0
  {
    Filter(rows, RowKept({id}, {})) + NewRows(id, entries)
  }

  /** Replacing a recipe's rows gives it exactly the new rows, in payload order. */
  lemma ReplacedRowsOfSelf(rows: seq<RecipeIngredient>, id: RecipeId, entries: seq<IngredientEntry>)
    requires forall k | 0 <= k < |entries| :: entries[k].amount >= 0
    ensures RowsOf(ReplacedRows(rows, id, entries), id) == NewRows(id, entries)
  {
    var kept := Filter(rows, RowKept({id}, {}));
    AppendedRowsOf(kept, id, entries);
  }

  /** Replacing a recipe's rows leaves the ingredient list of every other recipe as it was. */
  lemma ReplacedRowsOfOther(rows: seq<RecipeIngredient>, id: RecipeId, entries: seq<IngredientEntry>, other: RecipeId)
    requires forall k | 0 <= k < |entries| :: entries[k].amount >= 0
    requires other != id
    ensures RowsOf(ReplacedRows(rows, id, entries), other) == RowsOf(rows, other)
  {
    var kept := Filter(rows, RowKept({id}, {}));
    var added := NewRows(id, entries);
    FilterAppend(kept, added, InRecipe(other));
    FilterKeepsNone(added, InRecipe(other));
    FilterTwice(rows, RowKept({id}, {}), InRecipe(other));
  }

  /** Two row tables over disjoint sets of recipes can be concatenated. */
  lemma RowsValidAppend(a: seq<RecipeIngredient>, ra: set<RecipeId>, c: seq<RecipeIngredient>, rc: set<RecipeId>,
                        catalog: set<IngredientId>, b: Bounds)
    requires RowsValid(a, ra, catalog, b) && RowsValid(c, rc, catalog, b) && ra !! rc
    ensures RowsValid(a + c, ra + rc, catalog, b)
  {
    assert forall i, j | 0 <= i < |a| && 0 <= j < |c| :: a[i].recipe in ra && c[j].recipe in rc;
    OneRowPerPairAppend(a, c);
    var t := a + c;
    forall k | 0 <= k < |t|
      ensures AmountInRange(t[k].amount, b) && t[k].recipe in ra + rc && t[k].ingredient in catalog
    {
      assert t[k] == if k < |a| then a[k] else c[k - |a|];
    }
  }

  /** Rows appended for a recipe no existing row belongs to are exactly that
      recipe's rows. */
  lemma AppendedRowsOf(rows: seq<RecipeIngredient>, id: RecipeId, entries: seq<IngredientEntry>)
    requires forall k | 0 <= k < |entries| :: entries[k].amount >= 0
    requires forall k | 0 <= k < |rows| :: rows[k].recipe != id
    ensures RowsOf(rows + NewRows(id, entries), id) == NewRows(id, entries)
  {
    var added := NewRows(id, entries);
    FilterAppend(rows, added, InRecipe(id));
    FilterKeepsNone(rows, InRecipe(id));
    FilterKeepsAll(added, InRecipe(id));
  }

  /** Rows appended from an accepted payload for a recipe no existing row
      belongs to keep the row constraints. */
  lemma AppendFreshRows(rows: seq<RecipeIngredient>, recipes: set<RecipeId>, catalog: set<IngredientId>, b: Bounds,
                        id: RecipeId, entries: seq<IngredientEntry>)
    requires RowsValid(rows, recipes, catalog, b) && id !in recipes
    requires b.Valid() && IngredientsAcceptable(entries, catalog, b)
    ensures RowsValid(rows + NewRows(id, entries), recipes + {id}, catalog, b)
  {
    var added := NewRows(id, entries);
    NewRowsValid(id, entries, catalog, b);
    assert RowsValid(added, {id}, catalog, b);
    RowsValidAppend(rows, recipes, added, {id}, catalog, b);
  }

  /** The recipe `create` saves: the payload's fields (name and text as
      trimmed) and tag set, authored by `user`. */
  function NewRecipe(user: UserId, d: Draft): Recipe
    requires d.image.Some?
  {
    Recipe(Trim(d.name), Trim(d.text), d.cookingTime, d.image.value, user, Elements(d.tags))
  }

  /** A payload whose name and text are not all whitespace gives a recipe
      whose stored name and text are trimmed and non-empty. */
  lemma NewRecipeNotBlank(user: UserId, d: Draft)
    requires NotBlank(d.name) && NotBlank(d.text) && d.image.Some?
    ensures Stripped(NewRecipe(user, d).name) && Stripped(NewRecipe(user, d).text)
  {
    TrimBlankIff(d.name);
    TrimBlankIff(d.text);
  }

  /** A recipe row that satisfies its field constraints and foreign keys in `s`. */
  predicate RecipeFits(r: Recipe, s: State, b: Bounds)
  {
    && Stripped(r.name) && Stripped(r.text)
    && CookingTimeInRange(r.cookingTime, b) && r.author in s.users && r.tags <= s.tags.Keys
  }

  /** The tables after saving recipe `r` under `id` and one join row per entry. */
  function RecipePut(s: State, id: RecipeId, r: Recipe, entries: seq<IngredientEntry>): State
    requires forall k | 0 <= k < |entries| :: entries[k].amount >= 0
  {
    s.(recipes := s.recipes[id := r], rows := s.rows + NewRows(id, entries))
  }

  /** The tables after `create`: the new recipe and one join row per ingredient entry. */
  function RecipeCreated(s: State, user: UserId, d: Draft, id: RecipeId): State
    requires d.image.Some? && forall k | 0 <= k < |d.ingredients| :: d.ingredients[k].amount >= 0
  {
    RecipePut(s, id, NewRecipe(user, d), d.ingredients)
  }

  /** Writing a recipe whose fields satisfy the constraints under a key and
      giving that key exactly the rows of accepted entries keeps every
      constraint, whether the key is new or its old rows were just deleted. */
  lemma PutRecipeKeepsValid(s: State, b: Bounds, id: RecipeId, r: Recipe, entries: seq<IngredientEntry>)
    requires StateValid(s, b) && forall k | 0 <= k < |s.rows| :: s.rows[k].recipe != id
    requires RecipeFits(r, s, b) && IngredientsAcceptable(entries, s.ingredients.Keys, b)
    ensures StateValid(RecipePut(s, id, r, entries), b)
  {
    var recipes := s.recipes[id := r];
    assert recipes.Keys == s.recipes.Keys + {id};
    var others := s.recipes.Keys - {id};
    assert RowsValid(s.rows, others, s.ingredients.Keys, b);
    AppendFreshRows(s.rows, others, s.ingredients.Keys, b, id, entries);
    assert others + {id} == recipes.Keys;
  }

  /** Saving a recipe that fits under the next free key keeps every
      constraint, and the recipe's ingredient list is exactly the entries' rows. */
  lemma InsertKeepsValid(s: State, b: Bounds, id: RecipeId, r: Recipe, entries: seq<IngredientEntry>)
    requires StateValid(s, b) && IdsBelow(s, id)
    requires RecipeFits(r, s, b) && IngredientsAcceptable(entries, s.ingredients.Keys, b)
    ensures StateValid(RecipePut(s, id, r, entries), b) && IdsBelow(RecipePut(s, id, r, entries), id + 1)
    ensures RowsOf(RecipePut(s, id, r, entries).rows, id) == NewRows(id, entries)
  {
    assert forall k | 0 <= k < |s.rows| :: s.rows[k].recipe != id;
    PutRecipeKeepsValid(s, b, id, r, entries);
    AppendedRowsOf(s.rows, id, entries);
  }

  /** A create payload that passes validation gives a recipe row that fits the
      constraints and ingredient entries that are acceptable. */
  lemma AcceptedDraftFits(s: State, b: Bounds, user: UserId, d: Draft)
    requires b.Valid() && user in s.users && DraftErrors(d, s.ingredients.Keys, s.tags.Keys, b) == []
    ensures d.image.Some? && forall k | 0 <= k < |d.ingredients| :: d.ingredients[k].amount >= 0
    ensures RecipeFits(NewRecipe(user, d), s, b) && IngredientsAcceptable(d.ingredients, s.ingredients.Keys, b)
  {
    DraftErrorsEmptyIff(d, s.ingredients.Keys, s.tags.Keys, b);
    NewRecipeNotBlank(user, d);
    assert Elements(d.tags) <= s.tags.Keys;
  }

  /** A create payload that passes validation keeps every constraint, and the
      new recipe's ingredient list is exactly the payload's. */
  lemma CreateKeepsValid(s: State, b: Bounds, user: UserId, d: Draft, id: RecipeId)
    requires StateValid(s, b) && IdsBelow(s, id) && user in s.users
    requires DraftErrors(d, s.ingredients.Keys, s.tags.Keys, b) == []
    ensures d.image.Some? && forall k | 0 <= k < |d.ingredients| :: d.ingredients[k].amount >= 0
    ensures StateValid(RecipeCreated(s, user, d, id), b) && IdsBelow(RecipeCreated(s, user, d, id), id + 1)
    ensures RowsOf(RecipeCreated(s, user, d, id).rows, id) == NewRows(id, d.ingredients)
  {
    AcceptedDraftFits(s, b, user, d);
    InsertKeepsValid(s, b, id, NewRecipe(user, d), d.ingredients);
  }

  /** The tables after `update` of recipe `id`: the patched recipe and its
      replaced join rows. */
  function RecipeUpdated(s: State, id: RecipeId, p: Patch): State
    requires id in s.recipes && p.tags.Some? && p.ingredients.Some?
    requires forall k | 0 <= k < |p.ingredients.value| :: p.ingredients.value[k].amount >= 0
  {
    s.(recipes := s.recipes[id := Patched(s.recipes[id], p)],
       rows := ReplacedRows(s.rows, id, p.ingredients.value))
  }

  /** Updating an existing recipe with an accepted patch keeps every constraint. */
  lemma UpdateKeepsValid(s: State, b: Bounds, id: RecipeId, p: Patch)
    requires StateValid(s, b) && id in s.recipes
    requires PatchErrors(p, s.ingredients.Keys, s.tags.Keys, b) == []
    ensures p.tags.Some? && p.ingredients.Some?
    ensures forall k | 0 <= k < |p.ingredients.value| :: p.ingredients.value[k].amount >= 0
    ensures StateValid(RecipeUpdated(s, id, p), b)
  {
    PatchErrorsEmptyIff(p, s.ingredients.Keys, s.tags.Keys, b);
    var kept := Filter(s.rows, RowKept({id}, {}));
    RowsValidAfterFilter(s.rows, RowKept({id}, {}), s.recipes.Keys, s.ingredients.Keys, b);
    var u := s.(rows := kept);
    assert StateValid(u, b);
    var r := Patched(s.recipes[id], p);
    assert Elements(p.tags.value) <= s.tags.Keys;
    if p.name.Some? { TrimBlankIff(p.name.value); }
    if p.text.Some? { TrimBlankIff(p.text.value); }
    PutRecipeKeepsValid(u, b, id, r, p.ingredients.value);
  }

  /** The tables after deleting recipe `id`: the cascade removes its join
      rows, favorites and shopping-list rows. */
  function RecipeDeleted(s: State, id: RecipeId): State
  {
    s.(recipes := s.recipes - {id},
       rows := Filter(s.rows, RowKept({id}, {})),
       favorites := Filter(s.favorites, PairKept({}, {id})),
       cart := Filter(s.cart, PairKept({}, {id})))
  }

  /** Deleting a recipe and its dependent rows keeps every constraint. */
  lemma DeleteRecipeKeepsValid(s: State, b: Bounds, id: RecipeId)
    requires StateValid(s, b)
    ensures StateValid(RecipeDeleted(s, id), b)
  {
    var left := s.recipes.Keys - {id};
    RowsValidAfterFilter(s.rows, RowKept({id}, {}), left, s.ingredients.Keys, b);
    PairsValidAfterFilter(s.favorites, PairKept({}, {id}), s.users.Keys, left);
    PairsValidAfterFilter(s.cart, PairKept({}, {id}), s.users.Keys, left);
    assert RecipeDeleted(s, id).recipes.Keys == left;
  }

  /** The tables after deleting ingredient `id`: the cascade removes the join
      rows that use it. */
  function IngredientDeleted(s: State, id: IngredientId): State
  {
    s.(ingredients := s.ingredients - {id}, rows := Filter(s.rows, RowKept({}, {id})))
  }

  /** Deleting an ingredient and the rows that use it keeps every constraint. */
  lemma DeleteIngredientKeepsValid(s: State, b: Bounds, id: IngredientId)
    requires StateValid(s, b)
    ensures StateValid(IngredientDeleted(s, id), b)
  {
    RowsValidAfterFilter(s.rows, RowKept({}, {id}), s.recipes.Keys, s.ingredients.Keys - {id}, b);
    assert IngredientDeleted(s, id).ingredients.Keys == s.ingredients.Keys - {id};
  }

  /** The recipes an account authored. */
  function AuthoredRecipes(recipes: map<RecipeId, Recipe>, user: UserId): set<RecipeId>
  {
    set x | x in recipes && recipes[x].author == user
  }

  /** The tables after deleting account `id` with everything that cascades
      from it: its recipes (and their join rows, favorites and shopping-list
      rows), its own favorites and shopping-list rows, and every subscription
      in which it is follower or author. */
  function UserDeleted(s: State, id: UserId): State
  {
    var gone := AuthoredRecipes(s.recipes, id);
    s.(users := s.users - {id},
       recipes := s.recipes - gone,
       rows := Filter(s.rows, RowKept(gone, {})),
       favorites := Filter(s.favorites, PairKept({id}, gone)),
       cart := Filter(s.cart, PairKept({id}, gone)),
       subscriptions := Filter(s.subscriptions, FollowKept(id)))
  }

  /** Removing an account keeps the other accounts' constraints. */
  lemma UsersValidAfterRemove(users: map<UserId, User>, id: UserId)
    requires UsersValid(users)
    ensures UsersValid(users - {id})
  {
  }

  /** Removing an account's recipes leaves every remaining recipe with an existing author. */
  lemma RecipesValidAfterAuthorRemoved(recipes: map<RecipeId, Recipe>, users: set<UserId>, tags: set<TagId>,
                                       b: Bounds, id: UserId)
    requires RecipesValid(recipes, users, tags, b)
    ensures RecipesValid(recipes - AuthoredRecipes(recipes, id), users - {id}, tags, b)
  {
  }

  /** Deleting an account with everything that cascades from it keeps every constraint. */
  lemma DeleteUserKeepsValid(s: State, b: Bounds, id: UserId)
    requires StateValid(s, b)
    ensures StateValid(UserDeleted(s, id), b)
  {
    var t := UserDeleted(s, id);
    var gone := AuthoredRecipes(s.recipes, id);
    assert t.users.Keys == s.users.Keys - {id};
    assert t.recipes.Keys == s.recipes.Keys - gone;
    UsersValidAfterRemove(s.users, id);
    RecipesValidAfterAuthorRemoved(s.recipes, s.users.Keys, s.tags.Keys, b, id);
    RowsValidAfterFilter(s.rows, RowKept(gone, {}), t.recipes.Keys, s.ingredients.Keys, b);
    PairsValidAfterFilter(s.favorites, PairKept({id}, gone), t.users.Keys, t.recipes.Keys);
    PairsValidAfterFilter(s.cart, PairKept({id}, gone), t.users.Keys, t.recipes.Keys);
    SubscriptionsValidAfterFilter(s.subscriptions, FollowKept(id), t.users.Keys);
  }

  class Store {
    const bounds: Bounds
    var users: map<UserId, User>
    var ingredients: map<IngredientId, Ingredient>
    var tags: map<TagId, Tag>
    var recipes: map<RecipeId, Recipe>
    var rows: seq<RecipeIngredient>
    var favorites: seq<(UserId, RecipeId)>
    var cart: seq<(UserId, RecipeId)>
    var subscriptions: seq<(UserId, UserId)>
    /** The next primary key handed out (one sequence for every table). */
    var nextId: nat

    function Snapshot(): State
      reads this
    {
      State(users, ingredients, tags, recipes, rows, favorites, cart, subscriptions)
    }

    ghost predicate Valid()
      reads this
    {
      StateValid(Snapshot(), bounds) && IdsBelow(Snapshot(), nextId)
    }

    /** Writes every table at once (the effect of one committed transaction). */
    method Load(t: State)
      modifies this
      ensures Snapshot() == t && nextId == old(nextId)
    {
      users, ingredients, tags, recipes := t.users, t.ingredients, t.tags, t.recipes;
      rows, favorites, cart, subscriptions := t.rows, t.favorites, t.cart, t.subscriptions;
    }

    constructor (b: Bounds)
      requires b.Valid()
      ensures Valid() && bounds == b
      ensures Snapshot() == State(map[], map[], map[], map[], [], [], [], [])
    {
      bounds := b;
      users, ingredients, tags, recipes := map[], map[], map[], map[];
      rows, favorites, cart, subscriptions := [], [], [], [];
      nextId := 0;
    }

    /** Saving a new account: the username must match the pattern, the e-mail
        must be non-empty, and both must be unused; otherwise nothing is saved. */
    method AddUser(u: User) returns (id: Option<UserId>)
      requires Valid()
      modifies this
      ensures Valid()
      ensures id.Some? <==> && ValidUsername(u.username) && u.email != []
                            && forall x | x in old(users) :: old(users)[x].username != u.username
                                                              && old(users)[x].email != u.email
      ensures id.Some? ==> id.value !in old(users) && Snapshot() == old(Snapshot()).(users := old(users)[id.value := u])
      ensures id.None? ==> Snapshot() == old(Snapshot())
    {
      if !ValidUsername(u.username) || u.email == []
         || exists x | x in users :: users[x].username == u.username || users[x].email == u.email {
        return None;
      }
      id := Some(nextId);
      users := users[nextId := u];
      nextId := nextId + 1;
    }

    /** Saving a catalog ingredient: refused when the name is taken. */
    method AddIngredient(name: string, unit: string) returns (id: Option<IngredientId>)
      requires Valid()
      modifies this
      ensures Valid()
      ensures id.Some? <==> forall x | x in old(ingredients) :: old(ingredients)[x].name != name
      ensures id.Some? ==> id.value !in old(ingredients)
                           && Snapshot() == old(Snapshot()).(ingredients := old(ingredients)[id.value := Ingredient(name, unit)])
      ensures id.None? ==> Snapshot() == old(Snapshot())
    {
      if exists x | x in ingredients :: ingredients[x].name == name {
        return None;
      }
      id := Some(nextId);
      ingredients := ingredients[nextId := Ingredient(name, unit)];
      nextId := nextId + 1;
    }

    /** Saving a tag: refused when the slug is taken. */
    method AddTag(name: string, slug: string) returns (id: Option<TagId>)
      requires Valid()
      modifies this
      ensures Valid()
      ensures id.Some? <==> forall x | x in old(tags) :: old(tags)[x].slug != slug
      ensures id.Some? ==> id.value !in old(tags) && Snapshot() == old(Snapshot()).(tags := old(tags)[id.value := Tag(name, slug)])
      ensures id.None? ==> Snapshot() == old(Snapshot())
    {
      if exists x | x in tags :: tags[x].slug == slug {
        return None;
      }
      id := Some(nextId);
      tags := tags[nextId := Tag(name, slug)];
      nextId := nextId + 1;
    }

    /** `subscribe`: POST follows `author`, DELETE unfollows. */
    method Subscribe(user: UserId, author: UserId, verb: Verb) returns (r: Response)
      requires Valid() && user in users
      modifies this
      ensures Valid()
      // POST: unknown author, then self-follow, then duplicate; otherwise one row added.
      ensures verb == Post && author !in old(users) ==> r == Rejected(NotFound) && Snapshot() == old(Snapshot())
      ensures verb == Post && author in old(users) && author == user ==>
                r == Rejected(SelfSubscription) && Snapshot() == old(Snapshot())
      ensures verb == Post && author in old(users) && author != user && (user, author) in old(subscriptions) ==>
                r == Rejected(AlreadySubscribed) && Snapshot() == old(Snapshot())
      ensures verb == Post && author in old(users) && author != user && (user, author) !in old(subscriptions) ==>
                r == Created && Snapshot() == old(Snapshot()).(subscriptions := old(subscriptions) + [(user, author)])
      // DELETE: unknown user id, then nothing deleted; otherwise exactly that row removed.
      ensures verb == Delete && author !in old(users) ==> r == Rejected(NotFound) && Snapshot() == old(Snapshot())
      ensures verb == Delete && author in old(users) && (user, author) !in old(subscriptions) ==>
                r == Rejected(NotSubscribed) && Snapshot() == old(Snapshot())
      ensures verb == Delete && author in old(users) && (user, author) in old(subscriptions) ==>
                r == NoContent
                && Snapshot() == old(Snapshot()).(subscriptions := Filter(old(subscriptions), Except((user, author))))
    {
      if verb == Post {
        if author !in users {
          return Rejected(NotFound);
        }
        if user == author {
          return Rejected(SelfSubscription);
        }
        if (user, author) in subscriptions {
          return Rejected(AlreadySubscribed);
        }
        DistinctAppend(subscriptions, (user, author));
        subscriptions := subscriptions + [(user, author)];
        return Created;
      } else {
        if author !in users {
          return Rejected(NotFound);
        }
        var before := subscriptions;
        var remaining := Filter(subscriptions, Except((user, author)));
        SubscriptionsValidAfterFilter(subscriptions, Except((user, author)), users.Keys);
        var deletedCount := |subscriptions| - |remaining|;
        subscriptions := remaining;
        if deletedCount == 0 {
          FilterKeepsAll(before, Except((user, author)));
          return Rejected(NotSubscribed);
        }
        return NoContent;
      }
    }

    /** `shopping_cart`: POST adds the recipe to the user's list, DELETE removes it. */
    method ShoppingCart(user: UserId, recipe: RecipeId, verb: Verb) returns (r: Response)
      requires Valid() && user in users
      modifies this
      ensures Valid()
      ensures recipe !in old(recipes) ==> r == Rejected(NotFound) && Snapshot() == old(Snapshot())
      ensures verb == Post && recipe in old(recipes) && (user, recipe) in old(cart) ==>
                r == Rejected(AlreadyInCart) && Snapshot() == old(Snapshot())
      ensures verb == Post && recipe in old(recipes) && (user, recipe) !in old(cart) ==>
                r == Created && Snapshot() == old(Snapshot()).(cart := old(cart) + [(user, recipe)])
      ensures verb == Delete && recipe in old(recipes) && (user, recipe) !in old(cart) ==>
                r == Rejected(NotInCart) && Snapshot() == old(Snapshot())
      ensures verb == Delete && recipe in old(recipes) && (user, recipe) in old(cart) ==>
                r == NoContent && Snapshot() == old(Snapshot()).(cart := Filter(old(cart), Except((user, recipe))))
    {
      if recipe !in recipes {
        return Rejected(NotFound);
      }
      if verb == Post {
        if (user, recipe) in cart {
          return Rejected(AlreadyInCart);
        }
        DistinctAppend(cart, (user, recipe));
        cart := cart + [(user, recipe)];
        return Created;
      } else {
        if (user, recipe) in cart {
          PairsValidAfterFilter(cart, Except((user, recipe)), users.Keys, recipes.Keys);
          cart := Filter(cart, Except((user, recipe)));
          return NoContent;
        }
        return Rejected(NotInCart);
      }
    }

    /** `favorite`: POST adds the recipe to the user's favorites, DELETE removes it. */
    method Favorite(user: UserId, recipe: RecipeId, verb: Verb) returns (r: Response)
      requires Valid() && user in users
      modifies this
      ensures Valid()
      ensures recipe !in old(recipes) ==> r == Rejected(NotFound) && Snapshot() == old(Snapshot())
      ensures verb == Post && recipe in old(recipes) && (user, recipe) in old(favorites) ==>
                r == Rejected(AlreadyFavorited) && Snapshot() == old(Snapshot())
      ensures verb == Post && recipe in old(recipes) && (user, recipe) !in old(favorites) ==>
                r == Created && Snapshot() == old(Snapshot()).(favorites := old(favorites) + [(user, recipe)])
      ensures verb == Delete && recipe in old(recipes) && (user, recipe) !in old(favorites) ==>
                r == Rejected(NotFavorited) && Snapshot() == old(Snapshot())
      ensures verb == Delete && recipe in old(recipes) && (user, recipe) in old(favorites) ==>
                r == NoContent && Snapshot() == old(Snapshot()).(favorites := Filter(old(favorites), Except((user, recipe))))
    {
      if recipe !in recipes {
        return Rejected(NotFound);
      }
      if verb == Post {
        if (user, recipe) in favorites {
          return Rejected(AlreadyFavorited);
        }
        DistinctAppend(favorites, (user, recipe));
        favorites := favorites + [(user, recipe)];
        return Created;
      } else {
        if (user, recipe) in favorites {
          PairsValidAfterFilter(favorites, Except((user, recipe)), users.Keys, recipes.Keys);
          favorites := Filter(favorites, Except((user, recipe)));
          return NoContent;
        }
        return Rejected(NotFavorited);
      }
    }

    /** `create_ingredients`: saves one join row per entry, in payload order. */
    method CreateIngredients(recipe: RecipeId, entries: seq<IngredientEntry>)
      requires forall k | 0 <= k < |entries| :: entries[k].amount >= 0
      modifies this`rows
      ensures rows == old(rows) + NewRows(recipe, entries)
    {
      var i := 0;
      while i < |entries|
        invariant 0 <= i <= |entries|
        invariant rows == old(rows) + NewRows(recipe, entries[..i])
      {
        assert entries[..i + 1][..i] == entries[..i];
        rows := rows + [RowFor(recipe, entries[i])];
        i := i + 1;
      }
      assert entries[..i] == entries;
    }

    /** POST /recipes/: validate the payload, then save it. */
    method CreateRecipe(user: UserId, d: Draft) returns (r: Result<RecipeId, seq<WriteError>>)
      requires Valid() && user in users
      modifies this
      ensures Valid()
      ensures r.Err? <==> DraftErrors(d, old(ingredients).Keys, old(tags).Keys, bounds) != []
      ensures r.Err? ==> r.error == DraftErrors(d, old(ingredients).Keys, old(tags).Keys, bounds)
                         && Snapshot() == old(Snapshot())
      ensures r.Ok? ==> && r.value !in old(recipes) && d.image.Some?
                        && (forall k | 0 <= k < |d.ingredients| :: d.ingredients[k].amount >= 0)
                        && Snapshot() == RecipeCreated(old(Snapshot()), user, d, r.value)
                        && RowsOf(rows, r.value) == NewRows(r.value, d.ingredients)
    {
      var errors := DraftErrors(d, ingredients.Keys, tags.Keys, bounds);
      if errors != [] {
        return Err(errors);
      }
      AcceptedDraftFits(Snapshot(), bounds, user, d);
      var id := InsertRecipe(NewRecipe(user, d), d.ingredients);
      r := Ok(id);
    }

    /** `Recipe.objects.create` of a validated row, then `create_ingredients`:
        the row under a fresh key, then one join row per entry. */
    method InsertRecipe(recipe: Recipe, entries: seq<IngredientEntry>) returns (id: RecipeId)
      requires Valid() && RecipeFits(recipe, Snapshot(), bounds)
      requires IngredientsAcceptable(entries, ingredients.Keys, bounds)
      modifies this
      ensures Valid()
      ensures id !in old(recipes)
      ensures Snapshot() == RecipePut(old(Snapshot()), id, recipe, entries)
      ensures RowsOf(rows, id) == NewRows(id, entries)
    {
      var s := Snapshot();
      id := nextId;
      InsertKeepsValid(s, bounds, id, recipe, entries);
      Load(s.(recipes := s.recipes[id := recipe]));
      nextId := id + 1;
      CreateIngredients(id, entries);
      assert Snapshot() == RecipePut(s, id, recipe, entries);
    }

    /** PATCH /recipes/{id}/: 404 for an unknown recipe; then the present
        fields are validated; then `update` demands tags and ingredients,
        replaces the tag set, deletes the recipe's join rows, re-inserts one per
        entry and writes the remaining fields. */
    method UpdateRecipe(id: RecipeId, p: Patch) returns (r: UpdateOutcome)
      requires Valid()
      modifies this
      ensures Valid()
      ensures id !in old(recipes) ==> r == RecipeNotFound && Snapshot() == old(Snapshot())
      ensures id in old(recipes) && PatchErrors(p, old(ingredients).Keys, old(tags).Keys, bounds) != [] ==>
                r == Invalid(PatchErrors(p, old(ingredients).Keys, old(tags).Keys, bounds))
                && Snapshot() == old(Snapshot())
      ensures id in old(recipes) && PatchErrors(p, old(ingredients).Keys, old(tags).Keys, bounds) == [] ==>
                && r == Updated && p.tags.Some? && p.ingredients.Some?
                && (forall k | 0 <= k < |p.ingredients.value| :: p.ingredients.value[k].amount >= 0)
                && Snapshot() == RecipeUpdated(old(Snapshot()), id, p)
    {
      if id !in recipes {
        return RecipeNotFound;
      }
      var errors := PatchErrors(p, ingredients.Keys, tags.Keys, bounds);
      if errors != [] {
        return Invalid(errors);
      }
      var s := Snapshot();
      UpdateKeepsValid(s, bounds, id, p);
      assert IdsBelow(RecipeUpdated(s, id, p), nextId);
      Load(s.(recipes := s.recipes[id := Patched(s.recipes[id], p)], rows := Filter(s.rows, RowKept({id}, {}))));
      CreateIngredients(id, p.ingredients.value);
      assert Snapshot() == RecipeUpdated(s, id, p);
      r := Updated;
    }

    /** DELETE /recipes/{id}/: the recipe goes, and the cascade removes its
        join rows, favorites and shopping-list rows. */
    method DeleteRecipe(id: RecipeId) returns (r: Response)
      requires Valid()
      modifies this
      ensures Valid()
      ensures id !in old(recipes) ==> r == Rejected(NotFound) && Snapshot() == old(Snapshot())
      ensures id in old(recipes) ==> r == NoContent && Snapshot() == RecipeDeleted(old(Snapshot()), id)
    {
      if id !in recipes {
        return Rejected(NotFound);
      }
      var t := RecipeDeleted(Snapshot(), id);
      DeleteRecipeKeepsValid(Snapshot(), bounds, id);
      assert IdsBelow(t, nextId);
      Load(t);
      return NoContent;
    }

    /** Deleting an ingredient cascades to the join rows that use it. */
    method DeleteIngredient(id: IngredientId) returns (deleted: bool)
      requires Valid()
      modifies this
      ensures Valid()
      ensures deleted == (id in old(ingredients))
      ensures !deleted ==> Snapshot() == old(Snapshot())
      ensures deleted ==> Snapshot() == IngredientDeleted(old(Snapshot()), id)
    {
      if id !in ingredients {
        return false;
      }
      var t := IngredientDeleted(Snapshot(), id);
      DeleteIngredientKeepsValid(Snapshot(), bounds, id);
      assert IdsBelow(t, nextId);
      Load(t);
      return true;
    }

    /** Deleting an account cascades to its recipes (and their join rows,
        favorites and shopping-list rows), its own favorites and shopping-list
        rows, and every subscription in which it is follower or author. */
    method DeleteUser(id: UserId) returns (deleted: bool)
      requires Valid()
      modifies this
      ensures Valid()
      ensures deleted == (id in old(users))
      ensures !deleted ==> Snapshot() == old(Snapshot())
      ensures deleted ==> Snapshot() == UserDeleted(old(Snapshot()), id)
    {
      if id !in users {
        return false;
      }
      var t := UserDeleted(Snapshot(), id);
      DeleteUserKeepsValid(Snapshot(), bounds, id);
      assert IdsBelow(t, nextId);
      Load(t);
      return true;
    }

    /** `download_shopping_cart`: one line per (name, unit) of the rows of the
        user's cart recipes, carrying the total amount of those rows. */
    method DownloadShoppingCart(user: UserId) returns (text: string)
      requires Valid()
      ensures text == Render(CartGroups(rows, ingredients, cart, user))
      ensures DistinctKeys(CartGroups(rows, ingredients, cart, user))
      ensures forall j | 0 <= j < |CartGroups(rows, ingredients, cart, user)| ::
        CartGroups(rows, ingredients, cart, user)[j].amount
          == SumFor(CartEntries(rows, ingredients, cart, user), Key(CartGroups(rows, ingredients, cart, user)[j]))
      ensures forall k | 0 <= k < |rows| && (user, rows[k].recipe) in cart ::
        exists j | 0 <= j < |CartGroups(rows, ingredients, cart, user)| ::
          Key(CartGroups(rows, ingredients, cart, user)[j]) == RowKey(ingredients, rows[k])
      ensures forall j | 0 <= j < |CartGroups(rows, ingredients, cart, user)| ::
        exists k | 0 <= k < |rows| ::
          (user, rows[k].recipe) in cart && Key(CartGroups(rows, ingredients, cart, user)[j]) == RowKey(ingredients, rows[k])
    {
      CartGroupsSummed(rows, ingredients, cart, user);
      text := Render(CartGroups(rows, ingredients, cart, user));
    }

    /** `short_url`: 404 unless the recipe exists, otherwise a redirect to its page. */
    method ShortUrl(pk: RecipeId) returns (r: ShortLink)
      ensures r.Redirect? <==> pk in recipes
      ensures r.Redirect? ==> r.location == "/recipes/" + Show(pk) + "/"
    {
      if pk !in recipes {
        return LinkNotFound;
      }
      return Redirect("/recipes/" + Show(pk) + "/");
    }
  }
  /** The same favorite request sent twice: a second POST is a conflict and a
      second DELETE finds nothing to remove. */
  method FavoriteTwice(st: Store, user: UserId, recipe: RecipeId, verb: Verb) returns (first: Response, second: Response)
    requires st.Valid() && user in st.users && recipe in st.recipes
    modifies st
    ensures st.Valid()
    ensures verb == Post ==> second == Rejected(AlreadyFavorited)
    ensures verb == Delete ==> second == Rejected(NotFavorited)
  {
    first := st.Favorite(user, recipe, verb);
    second := st.Favorite(user, recipe, verb);
  }

  /** The same subscription request sent twice to another existing account:
      a second POST is a conflict and a second DELETE finds nothing to remove. */
  method SubscribeTwice(st: Store, user: UserId, author: UserId, verb: Verb) returns (first: Response, second: Response)
    requires st.Valid() && user in st.users && author in st.users && author != user
    modifies st
    ensures st.Valid()
    ensures verb == Post ==> second == Rejected(AlreadySubscribed)
    ensures verb == Delete ==> second == Rejected(NotSubscribed)
  {
    first := st.Subscribe(user, author, verb);
    second := st.Subscribe(user, author, verb);
  }
}
