/** Read-side membership flags: `is_favorited` and `is_in_shopping_cart`
    (computed by `get_serializer_method_field_value`) and `is_subscribed` on a
    user profile. Each is a pure lookup; none changes a table. */
module Flags {
  import opened Collections
  import opened UserModels
  import opened RecipeModels

  datatype Viewer = Anonymous | Member(id: UserId)

  datatype Request = Request(user: Viewer)

  /** A serializer context: falsy (None or an empty dict) or one holding the request. */
  datatype Context = Falsy | WithRequest(request: Request)

  /** The truth value of `context and context['request'].user.is_authenticated
      and relation.filter(user_id=..., recipe=obj).exists()`. */
  function RelationFlag(context: Context, relation: seq<(UserId, RecipeId)>, recipe: RecipeId): (flag: bool)
    ensures context.Falsy? ==> !flag
    ensures context.WithRequest? && context.request.user.Anonymous? ==> !flag
    ensures flag <==> exists viewer: UserId ::
      context == WithRequest(Request(Member(viewer))) && (viewer, recipe) in relation
  {
    match context
    case Falsy => false
    case WithRequest(request) =>
      match request.user
      case Anonymous => false
      case Member(id) => (id, recipe) in relation
  }

  /** `get_is_subscribed`: false without a request or for an anonymous user,
      otherwise whether the viewer follows `author`. */
  function IsSubscribed(request: Option<Request>, subscriptions: seq<(UserId, UserId)>, author: UserId): (flag: bool)
    ensures request.None? ==> !flag
    ensures flag <==> exists viewer: UserId ::
      request == Some(Request(Member(viewer))) && (viewer, author) in subscriptions
  {
    if request.None? || request.value.user.Anonymous? then false
    else (request.value.user.id, author) in subscriptions
  }

  /** Adding the viewer's row raises the flag; deleting it lowers it; rows of
      other users or recipes never decide it. */
  lemma FlagFollowsToggle(viewer: UserId, relation: seq<(UserId, RecipeId)>, recipe: RecipeId, other: (UserId, RecipeId))
    requires other != (viewer, recipe)
    ensures RelationFlag(WithRequest(Request(Member(viewer))), relation + [(viewer, recipe)], recipe)
    ensures !RelationFlag(WithRequest(Request(Member(viewer))),
                          Filter(relation, (p: (UserId, RecipeId)) => p != (viewer, recipe)), recipe)
    ensures RelationFlag(WithRequest(Request(Member(viewer))), relation + [other], recipe)
            == RelationFlag(WithRequest(Request(Member(viewer))), relation, recipe)
  {
    var rel := relation + [(viewer, recipe)];
    assert rel[|relation|] == (viewer, recipe);
    var with := relation + [other];
    assert forall p | p in with :: p in relation || p == other;
    assert forall p | p in relation :: p in with;
  }
}
