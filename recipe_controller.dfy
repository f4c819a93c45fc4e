/** Content shaping (backend/src/controllers/recipeController.js): the list
    of recipes, where premium recipes are cut down to a teaser for callers
    without premium access, and the single-recipe access decision.

    The recipe collection (`Recipe.find()`, `Recipe.findById`) is an input:
    the stored recipes in their order, or what the lookup by id gave. The
    caller is the account `protect` attached, absent when the token named
    none. */
module RecipeController {
  import opened Common
  import opened UserModel
  import opened RecipeModel

  /** How many ingredients a teaser shows. */
  const TeaserIngredientCount: nat := 2

  const TeaserText := "Actualiza a Premium para ver la receta completa"

  /** The access both handlers compute: premium status or the admin role;
      the expiry date is not consulted. */
  function IsPremiumCaller(u: User): (p: bool)
    ensures p <==> PermissionsOf(u).canViewPremium
    ensures p <==> u.subscriptionStatus == Premium || u.role == Admin
  {
    u.subscriptionStatus == Premium || u.role == Admin
  }

  /** `images?.[0] || null`: the first image, unless there is none or it is
      the empty string. */
  function FirstImage(images: seq<string>): (r: Option<string>)
    ensures r.Some? ==> r.value in images && r.value != ""
    ensures r.None? <==> |images| == 0 || images[0] == ""
    ensures r.Some? ==> r.value == images[0]
  {
    if |images| > 0 && images[0] != "" then Some(images[0]) else None
  }

  /** One entry of the list answer; `instructions` is null in a teaser. */
  datatype RecipeView = RecipeView(
    id: RecipeId,
    title: string,
    isPremium: bool,
    image: Option<string>,
    ingredients: seq<string>,
    instructions: Option<string>,
    teaser: Option<string>)

  /** Whether a caller without premium access sees only the teaser. */
  predicate Withheld(r: Recipe, premiumCaller: bool) {
    r.isPremium && !premiumCaller
  }

  /** The projection of one recipe: a withheld recipe keeps its id, title,
      first image, the first two ingredients, and carries the teaser text
      instead of the instructions; any other recipe is passed in full. */
  function ShapeRecipe(r: Recipe, premiumCaller: bool): (v: RecipeView)
    ensures v.id == r.id && v.title == r.title && v.isPremium == r.isPremium
    ensures v.image == FirstImage(r.images)
    ensures v.ingredients <= r.ingredients
    ensures v.teaser.Some? <==> Withheld(r, premiumCaller)
    ensures v.instructions.None? <==> Withheld(r, premiumCaller)
    ensures Withheld(r, premiumCaller) ==>
      && |v.ingredients| == (if |r.ingredients| < TeaserIngredientCount then |r.ingredients| else TeaserIngredientCount)
      && v.teaser == Some(TeaserText)
    ensures !Withheld(r, premiumCaller) ==> v.ingredients == r.ingredients && v.instructions == Some(r.instructions)
  {
    if Withheld(r, premiumCaller) then
      var n := if |r.ingredients| < TeaserIngredientCount then |r.ingredients| else TeaserIngredientCount;
      RecipeView(r.id, r.title, true, FirstImage(r.images), r.ingredients[..n], None, Some(TeaserText))
    else
      RecipeView(r.id, r.title, r.isPremium, FirstImage(r.images), r.ingredients, Some(r.instructions), None)
  }

  datatype ListResponse = RecipeList(views: seq<RecipeView>) | ListServerError

  /** `getRecipes`: reading `req.user.id` throws without an account (500);
      otherwise every stored recipe is projected, in order. */
  function GetRecipes(caller: Option<User>, recipes: seq<Recipe>): (r: ListResponse)
    ensures r.ListServerError? <==> caller.None?
    ensures r.RecipeList? ==> |r.views| == |recipes|
  {
    if caller.None? then ListServerError
    else
      var premium := IsPremiumCaller(caller.value);
      RecipeList(seq(|recipes|, i requires 0 <= i < |recipes| => ShapeRecipe(recipes[i], premium)))
  }

  /** The list has the stored order: entry `i` is recipe `i`, with its first
      image or none. */
  lemma GetRecipesKeepsOrder(caller: User, recipes: seq<Recipe>, i: nat)
    requires i < |recipes|
    ensures var views := GetRecipes(Some(caller), recipes).views;
      && |views| == |recipes|
      && views[i].id == recipes[i].id && views[i].title == recipes[i].title
      && views[i].image == FirstImage(recipes[i].images)
  {
  }

  /** A caller without premium access never receives the instructions of a
      premium recipe, and sees at most two of its ingredients, the first
      ones; free recipes reach them in full. */
  lemma GetRecipesWithholdsPremium(caller: User, recipes: seq<Recipe>)
    requires !IsPremiumCaller(caller)
    ensures var views := GetRecipes(Some(caller), recipes).views;
      forall i :: 0 <= i < |recipes| ==>
        if recipes[i].isPremium then
          && views[i].instructions.None? && views[i].teaser == Some(TeaserText)
          && |views[i].ingredients| <= TeaserIngredientCount
          && views[i].ingredients <= recipes[i].ingredients
        else
          && views[i].instructions == Some(recipes[i].instructions)
          && views[i].ingredients == recipes[i].ingredients
  {
  }

  /** A caller with premium access (premium status, or admin) receives every
      recipe in full and no teaser. */
  lemma GetRecipesFullForPremium(caller: User, recipes: seq<Recipe>)
    requires PermissionsOf(caller).canViewPremium
    ensures var views := GetRecipes(Some(caller), recipes).views;
      forall i :: 0 <= i < |recipes| ==>
        && views[i].instructions == Some(recipes[i].instructions)
        && views[i].ingredients == recipes[i].ingredients
        && views[i].teaser.None?
  {
  }

  /** What `Recipe.findById(req.params.id)` gives: the recipe, null when no
      recipe has that id, or a CastError thrown when the parameter is not a
      well-formed document id. */
  datatype RecipeLookup = LookupFound(recipe: Recipe) | LookupMissing | LookupMalformedId

  datatype ItemResponse = ItemServerError | NotFound | PremiumOnly | Found(recipe: Recipe)

  function ItemHttpStatus(r: ItemResponse): int {
    match r
    case ItemServerError => 500
    case NotFound => 404
    case PremiumOnly => 403
    case Found(_) => 200
  }

  /** `getRecipeById`: without an account the access computation throws
      (500) before the lookup; a malformed id makes the lookup throw (500);
      a missing recipe is 404; a premium recipe for a caller without premium
      access is 403 with `upgrade`, never a teaser; otherwise the stored
      record is returned whole. */
  function GetRecipeById(caller: Option<User>, lookup: RecipeLookup): (r: ItemResponse)
    ensures r == ItemServerError <==> caller.None? || lookup.LookupMalformedId?
    ensures r == NotFound <==> caller.Some? && lookup.LookupMissing?
    ensures r.Found? ==> lookup == LookupFound(r.recipe) && caller.Some?
  {
    if caller.None? then ItemServerError
    else match lookup
      case LookupMalformedId => ItemServerError
      case LookupMissing => NotFound
      case LookupFound(recipe) =>
        if Withheld(recipe, IsPremiumCaller(caller.value)) then PremiumOnly
        else Found(recipe)
  }

  /** The item answer agrees with the list: a recipe is refused with 403
      exactly when the list shows it as a teaser, and returned exactly when
      the list shows its instructions. */
  lemma ItemAgreesWithList(caller: User, recipes: seq<Recipe>, i: nat)
    requires i < |recipes|
    ensures var view := GetRecipes(Some(caller), recipes).views[i];
      var item := GetRecipeById(Some(caller), LookupFound(recipes[i]));
      && (item == PremiumOnly <==> view.teaser.Some?)
      && (item == Found(recipes[i]) <==> view.instructions == Some(recipes[i].instructions))
      && (item == PremiumOnly || item == Found(recipes[i]))
  {
  }

  /** The 403 is decided by the recipe's flag and the caller's access only. */
  lemma GetRecipeByIdForbidden(caller: User, recipe: Recipe)
    ensures GetRecipeById(Some(caller), LookupFound(recipe)) == PremiumOnly <==>
      recipe.isPremium && !PermissionsOf(caller).canViewPremium
    ensures ItemHttpStatus(PremiumOnly) == 403 && ItemHttpStatus(NotFound) == 404
  {
  }
}
