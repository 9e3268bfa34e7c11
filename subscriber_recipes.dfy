/** The nested `recipes` list of a subscription entry
    (`SubscriberDetailSerializer.get_recipes`): the author's recipes, capped by
    the `recipes_limit` query parameter or, failing that, by PAGE_SIZE. */
module SubscriberRecipes {
  import opened Collections
  import opened Decimal
  import opened UserModels
  import opened RecipeModels

  /** The only failure of the limit reader: `int()` refusing its argument. */
  datatype LimitError = ValueError

  /** `recipes_limit` as the code reads it: a value that passes `isdigit()`
      goes to `int()`, which raises on a digit that is not decimal (such as a
      superscript); an absent value or one that fails `isdigit()` falls back
      to `pageSize`. */
  function ParseLimitAsWritten(param: Option<string>, pageSize: nat): (r: Result<nat, LimitError>)
    ensures r.Err? ==> param.Some? && IsDigitString(param.value)
  {
    if param.Some? && IsDigitString(param.value) then
      if IsDecimalString(param.value) then Ok(Value(param.value)) else Err(ValueError)
    else Ok(pageSize)
  }

  /** `recipes_limit` as intended: a string of decimal digits
      (`isdecimal()`) becomes the limit; an absent or any other value falls
      back to `pageSize`. */
  function ParseLimit(param: Option<string>, pageSize: nat): nat
  {
    if param.Some? && IsDecimalString(param.value) then Value(param.value) else pageSize
  }

  /** As written, `?recipes_limit=²` passes `isdigit()` and makes `int()`
      raise; the intended reader falls back to the page size. */
  lemma SuperscriptLimitFails(pageSize: nat)
    ensures ParseLimitAsWritten(Some("\U{00B2}"), pageSize) == Err(ValueError)
    ensures ParseLimit(Some("\U{00B2}"), pageSize) == pageSize
  {
    assert IsDigitChar("\U{00B2}"[0]) && !IsDecimalChar("\U{00B2}"[0]);
  }

  /** The intended reader never fails, agrees with the code wherever the code
      does not raise, and the code raises exactly on a value that passes
      `isdigit()` but not `isdecimal()`. */
  lemma ParseLimitAgrees(param: Option<string>, pageSize: nat)
    ensures ParseLimitAsWritten(param, pageSize).Ok? ==>
              ParseLimitAsWritten(param, pageSize).value == ParseLimit(param, pageSize)
    ensures ParseLimitAsWritten(param, pageSize).Err?
            <==> param.Some? && IsDigitString(param.value) && !IsDecimalString(param.value)
  {
    if param.Some? && IsDecimalString(param.value) {
      assert IsDigitString(param.value);
    }
  }

  /** A limit written in decimal is read back as itself, also in another
      script's digits; an absent, empty, signed or non-numeric parameter
      yields the page size. */
  lemma ParseLimitCases(n: nat, pageSize: nat, s: string)
    ensures ParseLimit(Some(Show(n)), pageSize) == n
    ensures ParseLimit(Some("\U{0663}\U{0660}"), pageSize) == 30
    ensures ParseLimit(None, pageSize) == pageSize
    ensures ParseLimit(Some(""), pageSize) == pageSize
    ensures ParseLimit(Some("-" + s), pageSize) == pageSize
    ensures (exists k | 0 <= k < |s| :: !IsDecimalChar(s[k])) ==> ParseLimit(Some(s), pageSize) == pageSize
  {
    ValueOfShow(n);
    assert !IsDecimalChar(("-" + s)[0]);
    var arabic := "\U{0663}\U{0660}";
    assert arabic[..1] == "\U{0663}" && arabic[..1][..0] == [];
  }

  /** `Recipe.objects.filter(author=author)` over a listing in the table's order. */
  function AuthoredBy(listing: seq<(RecipeId, Recipe)>, author: UserId): (r: seq<(RecipeId, Recipe)>)
    ensures forall k | 0 <= k < |r| :: r[k].1.author == author && r[k] in listing
    ensures forall k | 0 <= k < |listing| && listing[k].1.author == author :: listing[k] in r
  {
    var keep := (e: (RecipeId, Recipe)) => e.1.author == author;
    FilterSubset(listing, keep);
    FilterComplete(listing, keep);
    Filter(listing, keep)
  }

  /** The nested list: the first `limit` of the author's recipes. */
  function GetRecipes(listing: seq<(RecipeId, Recipe)>, author: UserId, param: Option<string>, pageSize: nat)
    : (r: seq<(RecipeId, Recipe)>)
    ensures |r| <= ParseLimit(param, pageSize)
    ensures forall k | 0 <= k < |r| :: r[k].1.author == author && r[k] in listing
    ensures |r| == if |AuthoredBy(listing, author)| < ParseLimit(param, pageSize)
                   then |AuthoredBy(listing, author)| else ParseLimit(param, pageSize)
    ensures r <= AuthoredBy(listing, author)
  {
    var mine := AuthoredBy(listing, author);
    var limit := ParseLimit(param, pageSize);
    if |mine| <= limit then mine else mine[..limit]
  }
}
