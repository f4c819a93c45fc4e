/** Recipes (backend/src/models/Recipe.js): required, trimmed title; a list of
    ingredient strings; required instructions; image URLs; a premium flag
    that defaults to false; the author. */
module RecipeModel {
  import opened Common

  type RecipeId = nat

  datatype Recipe = Recipe(
    id: RecipeId,
    title: string,
    ingredients: seq<string>,
    instructions: string,
    images: seq<string>,
    isPremium: bool,
    createdBy: UserId,
    createdAt: int)

  /** The fields handed to `Recipe.create`, before casting, validation and defaults. */
  datatype RecipeDoc = RecipeDoc(
    title: Option<string>,
    ingredients: seq<string>,
    instructions: Option<string>,
    images: seq<string>,
    isPremium: Option<bool>,
    createdBy: Option<UserId>)

  /** The characters `String.prototype.trim` removes: ECMAScript WhiteSpace
      and LineTerminator code points. */
  predicate IsWhitespace(c: char) {
    || c == '\t' || c == '\n' || c == '\U{000B}' || c == '\U{000C}' || c == '\r'
    || c == ' ' || c == '\U{00A0}' || c == '\U{1680}'
    || ('\U{2000}' <= c <= '\U{200A}')
    || c == '\U{2028}' || c == '\U{2029}' || c == '\U{202F}' || c == '\U{205F}'
    || c == '\U{3000}' || c == '\U{FEFF}'
  }

  /** The first index at or after `from` whose character is not
      whitespace, or `|s|` when there is none. */
  function SkipWhitespace(s: string, from: nat): (i: nat)
    requires from <= |s|
    ensures from <= i <= |s|
    ensures forall k :: from <= k < i ==> IsWhitespace(s[k])
    ensures i < |s| ==> !IsWhitespace(s[i])
    decreases |s| - from
  {
    if from < |s| && IsWhitespace(s[from]) then SkipWhitespace(s, from + 1) else from
  }

  /** The end of what `s[lo..hi]` holds once its trailing whitespace is
      dropped: the least `j` in `[lo, hi]` after which `s[..hi]` has only
      whitespace. */
  function BackOverWhitespace(s: string, lo: nat, hi: nat): (j: nat)
    requires lo <= hi <= |s|
    ensures lo <= j <= hi
    ensures forall k :: j <= k < hi ==> IsWhitespace(s[k])
    ensures lo < j ==> !IsWhitespace(s[j - 1])
    decreases hi - lo
  {
    if lo < hi && IsWhitespace(s[hi - 1]) then BackOverWhitespace(s, lo, hi - 1) else hi
  }

  /** The span `[i, j)` that `trim` keeps: everything outside it is
      whitespace, its first and last characters are not, and it is empty
      exactly when the whole string is whitespace. */
  function TrimBounds(s: string): (b: (nat, nat))
    ensures b.0 <= b.1 <= |s|
    ensures forall k :: 0 <= k < b.0 ==> IsWhitespace(s[k])
    ensures forall k :: b.1 <= k < |s| ==> IsWhitespace(s[k])
    ensures b.0 < b.1 ==> !IsWhitespace(s[b.0]) && !IsWhitespace(s[b.1 - 1])
    ensures b.0 == b.1 <==> forall k :: 0 <= k < |s| ==> IsWhitespace(s[k])
  {
    var i := SkipWhitespace(s, 0);
    var j := BackOverWhitespace(s, i, |s|);
    (i, j)
  }

  /** `trim: true`: the stored title is the given one without its leading
      and trailing whitespace. It is empty exactly when the given title is
      blank, and otherwise neither starts nor ends with whitespace. */
  function Trim(s: string): (r: string)
    ensures |r| <= |s|
    ensures r == s[TrimBounds(s).0..TrimBounds(s).1]
    ensures r == [] <==> forall k :: 0 <= k < |s| ==> IsWhitespace(s[k])
    ensures r == [] || (!IsWhitespace(r[0]) && !IsWhitespace(r[|r| - 1]))
  {
    var (i, j) := TrimBounds(s);
    s[i..j]
  }

  /** Schema casting, validation and defaults. The title is trimmed before it
      is checked, so a blank title is missing; every ingredient and the
      instructions are required strings; `isPremium` defaults to false. */
  function CreateRecipe(doc: RecipeDoc, id: RecipeId, now: int): (r: Result<Recipe, SchemaError>)
    ensures r.Success? <==>
      && doc.title.Some? && Trim(doc.title.value) != ""
      && (forall k :: 0 <= k < |doc.ingredients| ==> doc.ingredients[k] != "")
      && Truthy(doc.instructions)
      && doc.createdBy.Some?
    ensures r.Success? ==>
      && r.value.title == Trim(doc.title.value)
      && r.value.ingredients == doc.ingredients
      && r.value.instructions == doc.instructions.value
      && r.value.images == doc.images
      && r.value.isPremium == doc.isPremium.GetOr(false)
      && r.value.createdBy == doc.createdBy.value
      && r.value.id == id && r.value.createdAt == now
  {
    var title := if doc.title.Some? then Trim(doc.title.value) else "";
    if title == "" then Failure(MissingRequired("title"))
    else if exists k :: 0 <= k < |doc.ingredients| && doc.ingredients[k] == "" then Failure(MissingRequired("ingredients"))
    else if !Truthy(doc.instructions) then Failure(MissingRequired("instructions"))
    else if doc.createdBy.None? then Failure(MissingRequired("createdBy"))
    else Success(Recipe(id, title, doc.ingredients, doc.instructions.value, doc.images,
                        doc.isPremium.GetOr(false), doc.createdBy.value, now))
  }
}
