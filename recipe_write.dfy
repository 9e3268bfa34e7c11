/** The recipe write serializer's validation: the `tags`, `ingredients`,
    `image` and `cooking_time` fields of a create (POST) or partial update
    (PATCH) payload, and the join rows `create_ingredients` derives from it. */
module RecipeWrite {
  import opened Collections
  import opened Strings
  import opened RecipeModels

  /** One `{id, amount}` item of the `ingredients` list. */
  datatype IngredientEntry = IngredientEntry(id: IngredientId, amount: int)

  /** A create payload; `image` is None for a missing or null image. */
  datatype Draft = Draft(
    name: string,
    text: string,
    cookingTime: int,
    image: Option<string>,
    tags: seq<TagId>,
    ingredients: seq<IngredientEntry>)

  /** A partial-update payload: None marks a field left out of the request. */
  datatype Patch = Patch(
    name: Option<string>,
    text: Option<string>,
    cookingTime: Option<int>,
    image: Option<Option<string>>,
    tags: Option<seq<TagId>>,
    ingredients: Option<seq<IngredientEntry>>)

  /** The field-scoped rejections; every one is answered with status 400. */
  datatype WriteError =
    | UnknownTag                 // a tag id with no Tag row
    | NoTags                     // "Добавьте тег"
    | RepeatedTags               // "Теги должны быть уникальными"
    | AmountOutOfRange           // the join row's amount validators
    | NoIngredients              // "Добавьте ингредиент"
    | UnknownOrRepeatedIngredient
    | BlankName                  // `name` empty once trimmed
    | BlankText                  // `text` empty once trimmed
    | NoImage
    | CookingTimeOutOfRange
    | TagsMissing                // update() without "tags"
    | IngredientsMissing         // update() without "ingredients"

  function Ids(entries: seq<IngredientEntry>): (ids: seq<IngredientId>)
    ensures |ids| == |entries| && forall k | 0 <= k < |entries| :: ids[k] == entries[k].id
  {
    seq(|entries|, k requires 0 <= k < |entries| => entries[k].id)
  }

  /** `validate_tags`: rejects an empty list, then a list with a repeated id;
      otherwise passes the list through. */
  function ValidateTags(value: seq<TagId>): (r: Result<seq<TagId>, WriteError>)
    ensures r.Ok? <==> value != [] && Distinct(value)
    ensures r.Ok? ==> r.value == value
    ensures r.Err? ==> (r.error == NoTags <==> value == []) && r.error in {NoTags, RepeatedTags}
  {
    if value == [] then Err(NoTags)
    else if |value| != |Elements(value)| then
      DistinctIffNoShrink(value);
      Err(RepeatedTags)
    else
      DistinctIffNoShrink(value);
      Ok(value)
  }

  /** `validate_ingredients`: rejects an empty list; then compares the number of
      catalog rows whose id is among the given ids with the list's length, so an
      unknown id and a repeated id are both rejected. */
  function ValidateIngredients(value: seq<IngredientEntry>, catalog: set<IngredientId>)
    : (r: Result<seq<IngredientEntry>, WriteError>)
    ensures r.Ok? <==> value != [] && Distinct(Ids(value)) && forall k | 0 <= k < |value| :: value[k].id in catalog
    ensures r.Ok? ==> r.value == value
    ensures r.Err? ==> (r.error == NoIngredients <==> value == []) && r.error in {NoIngredients, UnknownOrRepeatedIngredient}
  {
    if value == [] then Err(NoIngredients)
    else
      var ids := Ids(value);
      var existing := Elements(ids) * catalog;
      ExistingCountMatches(ids, catalog);
      if |existing| != |ids| then Err(UnknownOrRepeatedIngredient) else Ok(value)
  }

  /** The count of distinct catalog ids among `ids` equals `len(ids)` exactly
      when the ids are pairwise different and all in the catalog. */
  lemma ExistingCountMatches(ids: seq<IngredientId>, catalog: set<IngredientId>)
    ensures |Elements(ids) * catalog| == |ids|
            <==> Distinct(ids) && forall k | 0 <= k < |ids| :: ids[k] in catalog
  {
    var all := Elements(ids);
    var existing := all * catalog;
    DistinctIffNoShrink(ids);
    assert |all| == |all - existing| + |existing|;
    if |existing| == |ids| {
      assert all - existing == {};
      forall k | 0 <= k < |ids| ensures ids[k] in catalog {
        assert ids[k] in all;
      }
    }
    if Distinct(ids) && forall k | 0 <= k < |ids| :: ids[k] in catalog {
      assert existing == all;
    }
  }

  /** `validate_image`: rejects a missing, null or empty image. */
  function ValidateImage(value: Option<string>): (r: Result<string, WriteError>)
    ensures r.Ok? <==> value.Some? && value.value != []
    ensures r.Ok? ==> r.value == value.value
    ensures r.Err? ==> r.error == NoImage
  {
    if value.None? || value.value == [] then Err(NoImage) else Ok(value.value)
  }

  /** The `tags` field: every id must name a Tag row (the related field's own
      check), then `validate_tags`. */
  function TagsError(value: seq<TagId>, knownTags: set<TagId>): Option<WriteError>
  {
    if exists k | 0 <= k < |value| :: value[k] !in knownTags then Some(UnknownTag)
    else match ValidateTags(value)
      case Ok(_) => None
      case Err(e) => Some(e)
  }

  /** The `ingredients` field: each item's amount validators, then `validate_ingredients`. */
  function IngredientsError(value: seq<IngredientEntry>, catalog: set<IngredientId>, b: Bounds): Option<WriteError>
  {
    if exists k | 0 <= k < |value| :: !AmountInRange(value[k].amount, b) then Some(AmountOutOfRange)
    else match ValidateIngredients(value, catalog)
      case Ok(_) => None
      case Err(e) => Some(e)
  }

  function ImageError(value: Option<string>): Option<WriteError>
  {
    match ValidateImage(value)
    case Ok(_) => None
    case Err(e) => Some(e)
  }

  /** The `name` field: DRF trims the value, then refuses an empty one. */
  function NameError(value: string): Option<WriteError>
  {
    if Trim(value) == [] then Some(BlankName) else None
  }

  /** The `text` field: trimmed, then refused when empty. */
  function TextError(value: string): Option<WriteError>
  {
    if Trim(value) == [] then Some(BlankText) else None
  }

  function CookingTimeError(t: int, b: Bounds): Option<WriteError>
  {
    if CookingTimeInRange(t, b) then None else Some(CookingTimeOutOfRange)
  }

  function Collect(errors: seq<Option<WriteError>>): (r: seq<WriteError>)
    ensures r == [] <==> forall k | 0 <= k < |errors| :: errors[k].None?
  {
    if errors == [] then []
    else (if errors[0].Some? then [errors[0].value] else []) + Collect(errors[1..])
  }

  /** The errors `is_valid()` reports for a create payload, one per failing
      field, in the serializer's field order. */
  function DraftErrors(d: Draft, catalog: set<IngredientId>, knownTags: set<TagId>, b: Bounds): seq<WriteError>
  {
    Collect([TagsError(d.tags, knownTags), IngredientsError(d.ingredients, catalog, b), NameError(d.name),
             ImageError(d.image), TextError(d.text), CookingTimeError(d.cookingTime, b)])
  }

  /** A tag list the serializer accepts. */
  predicate TagsAcceptable(tags: seq<TagId>, knownTags: set<TagId>)
  {
    tags != [] && Distinct(tags) && forall k | 0 <= k < |tags| :: tags[k] in knownTags
  }

  /** An ingredient list the serializer accepts. */
  predicate IngredientsAcceptable(entries: seq<IngredientEntry>, catalog: set<IngredientId>, b: Bounds)
  {
    && entries != []
    && Distinct(Ids(entries))
    && forall k | 0 <= k < |entries| :: entries[k].id in catalog && AmountInRange(entries[k].amount, b)
  }

  /** The `tags` field passes exactly when the list is acceptable. */
  lemma TagsErrorIff(value: seq<TagId>, knownTags: set<TagId>)
    ensures TagsError(value, knownTags).None? <==> TagsAcceptable(value, knownTags)
  {
  }

  /** The `ingredients` field passes exactly when the list is acceptable. */
  lemma IngredientsErrorIff(value: seq<IngredientEntry>, catalog: set<IngredientId>, b: Bounds)
    ensures IngredientsError(value, catalog, b).None? <==> IngredientsAcceptable(value, catalog, b)
  {
  }

  /** The `name` field passes exactly when it is not all whitespace. */
  lemma NameErrorIff(value: string)
    ensures NameError(value).None? <==> NotBlank(value)
  {
    TrimBlankIff(value);
  }

  /** The `text` field passes exactly when it is not all whitespace. */
  lemma TextErrorIff(value: string)
    ensures TextError(value).None? <==> NotBlank(value)
  {
    TrimBlankIff(value);
  }

  /** Six field results give no error exactly when each is None. */
  lemma CollectSix(a: Option<WriteError>, b: Option<WriteError>, c: Option<WriteError>,
                   d: Option<WriteError>, e: Option<WriteError>, f: Option<WriteError>)
    ensures Collect([a, b, c, d, e, f]) == [] <==> a.None? && b.None? && c.None? && d.None? && e.None? && f.None?
  {
    var fields := [a, b, c, d, e, f];
    assert (forall k | 0 <= k < |fields| :: fields[k].None?)
           <==> fields[0].None? && fields[1].None? && fields[2].None? && fields[3].None?
                && fields[4].None? && fields[5].None?;
  }

  /** A create payload passes validation exactly when it has at least one tag,
      no repeated or unknown tag, at least one ingredient, no repeated or
      unknown ingredient, a name and a text that are not all whitespace, every
      amount and the cooking time in range, and an image. */
  lemma DraftErrorsEmptyIff(d: Draft, catalog: set<IngredientId>, knownTags: set<TagId>, b: Bounds)
    ensures DraftErrors(d, catalog, knownTags, b) == []
            <==> && TagsAcceptable(d.tags, knownTags)
                 && IngredientsAcceptable(d.ingredients, catalog, b)
                 && NotBlank(d.name) && NotBlank(d.text)
                 && d.image.Some? && d.image.value != []
                 && CookingTimeInRange(d.cookingTime, b)
  {
    TagsErrorIff(d.tags, knownTags);
    IngredientsErrorIff(d.ingredients, catalog, b);
    NameErrorIff(d.name);
    TextErrorIff(d.text);
    CollectSix(TagsError(d.tags, knownTags), IngredientsError(d.ingredients, catalog, b), NameError(d.name),
               ImageError(d.image), TextError(d.text), CookingTimeError(d.cookingTime, b));
  }

  /** The errors of a partial update. Only the fields present are validated;
      when they pass, `update` still insists on `tags` and then `ingredients`. */
  function PatchErrors(p: Patch, catalog: set<IngredientId>, knownTags: set<TagId>, b: Bounds): seq<WriteError>
  {
    var fieldErrors := Collect([
      if p.tags.Some? then TagsError(p.tags.value, knownTags) else None,
      if p.ingredients.Some? then IngredientsError(p.ingredients.value, catalog, b) else None,
      if p.name.Some? then NameError(p.name.value) else None,
      if p.image.Some? then ImageError(p.image.value) else None,
      if p.text.Some? then TextError(p.text.value) else None,
      if p.cookingTime.Some? then CookingTimeError(p.cookingTime.value, b) else None]);
    if fieldErrors != [] then fieldErrors
    else if p.tags.None? then [TagsMissing]
    else if p.ingredients.None? then [IngredientsMissing]
    else []
  }

  /** A patch without tags or without ingredients is always rejected; one that
      passes carries acceptable tags and ingredients and valid present fields. */
  lemma PatchErrorsEmptyIff(p: Patch, catalog: set<IngredientId>, knownTags: set<TagId>, b: Bounds)
    ensures p.tags.None? || p.ingredients.None? ==> PatchErrors(p, catalog, knownTags, b) != []
    ensures PatchErrors(p, catalog, knownTags, b) == []
            <==> && p.tags.Some? && TagsAcceptable(p.tags.value, knownTags)
                 && p.ingredients.Some? && IngredientsAcceptable(p.ingredients.value, catalog, b)
                 && (p.name.Some? ==> NotBlank(p.name.value))
                 && (p.text.Some? ==> NotBlank(p.text.value))
                 && (p.image.Some? ==> p.image.value.Some? && p.image.value.value != [])
                 && (p.cookingTime.Some? ==> CookingTimeInRange(p.cookingTime.value, b))
  {
    if p.tags.Some? { TagsErrorIff(p.tags.value, knownTags); }
    if p.ingredients.Some? { IngredientsErrorIff(p.ingredients.value, catalog, b); }
    if p.name.Some? { NameErrorIff(p.name.value); }
    if p.text.Some? { TextErrorIff(p.text.value); }
    CollectSix(
      if p.tags.Some? then TagsError(p.tags.value, knownTags) else None,
      if p.ingredients.Some? then IngredientsError(p.ingredients.value, catalog, b) else None,
      if p.name.Some? then NameError(p.name.value) else None,
      if p.image.Some? then ImageError(p.image.value) else None,
      if p.text.Some? then TextError(p.text.value) else None,
      if p.cookingTime.Some? then CookingTimeError(p.cookingTime.value, b) else None);
  }

  /** The join row `create_ingredients` inserts for one entry. */
  function RowFor(recipe: RecipeId, e: IngredientEntry): RecipeIngredient
    requires e.amount >= 0
  {
    RecipeIngredient(recipe, e.id, e.amount)
  }

  /** The rows `create_ingredients` inserts, in payload order. */
  function NewRows(recipe: RecipeId, entries: seq<IngredientEntry>): (rows: seq<RecipeIngredient>)
    requires forall k | 0 <= k < |entries| :: entries[k].amount >= 0
    ensures |rows| == |entries|
    ensures forall k | 0 <= k < |entries| ::
      rows[k].recipe == recipe && rows[k].ingredient == entries[k].id && rows[k].amount == entries[k].amount
  {
    if entries == [] then []
    else NewRows(recipe, entries[..|entries| - 1]) + [RowFor(recipe, entries[|entries| - 1])]
  }

  /** Accepted entries give join rows that satisfy every row constraint. */
  lemma NewRowsValid(recipe: RecipeId, entries: seq<IngredientEntry>, catalog: set<IngredientId>, b: Bounds)
    requires b.Valid() && IngredientsAcceptable(entries, catalog, b)
    ensures OneRowPerPair(NewRows(recipe, entries))
    ensures forall k | 0 <= k < |entries| ::
      NewRows(recipe, entries)[k].ingredient in catalog && AmountInRange(NewRows(recipe, entries)[k].amount, b)
  {
    var rows := NewRows(recipe, entries);
    assert forall i, j | 0 <= i < j < |entries| :: Ids(entries)[i] != Ids(entries)[j];
  }
}
