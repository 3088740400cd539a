/** The recipe editor of the admin pages: a draft recipe held as mutable
    state, the handlers that edit it, and the request it submits. */
module RecipeForm {
  import opened Wrappers
  import opened Sequences
  import RecipesApi

  type Ingredient = RecipesApi.IngredientInput

  /** The two editable fields of an ingredient. */
  datatype Field = Name | Amount

  /** The code points `String.prototype.trim` removes: ECMAScript's
      WhiteSpace and LineTerminator characters. */
  predicate IsWhitespace(c: char) {
    || c == '\U{0009}' || c == '\U{000A}' || c == '\U{000B}' || c == '\U{000C}'
    || c == '\U{000D}' || c == '\U{0020}' || c == '\U{00A0}' || c == '\U{1680}'
    || ('\U{2000}' <= c <= '\U{200A}')
    || c == '\U{2028}' || c == '\U{2029}' || c == '\U{202F}' || c == '\U{205F}'
    || c == '\U{3000}' || c == '\U{FEFF}'
  }

  /** `trimStart`; what it removes is stated by `TrimStartSpec`. */
  function TrimStart(s: string): (r: string)
    ensures |r| <= |s|
  {
    if s != [] && IsWhitespace(s[0]) then TrimStart(s[1..]) else s
  }

  /** `trimEnd`; what it removes is stated by `TrimEndSpec`. */
  function TrimEnd(s: string): (r: string)
    ensures |r| <= |s|
  {
    if s != [] && IsWhitespace(s[|s| - 1]) then TrimEnd(s[..|s| - 1]) else s
  }

  /** `s.trim()`: never longer than `s`, and neither starts nor ends with
      whitespace. */
  function Trim(s: string): (r: string)
    ensures |r| <= |s|
    ensures r != [] ==> !IsWhitespace(r[0]) && !IsWhitespace(r[|r| - 1])
  {
    TrimStartSpec(s);
    TrimEndSpec(TrimStart(s));
    TrimEnd(TrimStart(s))
  }

  lemma {:induction false} TrimStartSpec(s: string)
    ensures var r := TrimStart(s);
      && r == s[|s| - |r|..]
      && (forall k :: 0 <= k < |s| - |r| ==> IsWhitespace(s[k]))
      && (r == [] || !IsWhitespace(r[0]))
  {
    if s != [] && IsWhitespace(s[0]) {
      TrimStartSpec(s[1..]);
    }
  }

  lemma {:induction false} TrimEndSpec(s: string)
    ensures var r := TrimEnd(s);
      && r == s[..|r|]
      && (forall k :: |r| <= k < |s| ==> IsWhitespace(s[k]))
      && (r == [] || !IsWhitespace(r[|r| - 1]))
  {
    if s != [] && IsWhitespace(s[|s| - 1]) {
      TrimEndSpec(s[..|s| - 1]);
    }
  }

  /** The trimmed string is the part of `s` between a whitespace prefix and a
      whitespace suffix, and neither starts nor ends with whitespace. */
  lemma TrimSlice(s: string) returns (i: nat, j: nat)
    ensures i <= j <= |s| && Trim(s) == s[i..j]
    ensures forall k :: 0 <= k < i ==> IsWhitespace(s[k])
    ensures forall k :: j <= k < |s| ==> IsWhitespace(s[k])
    ensures Trim(s) != [] ==> !IsWhitespace(Trim(s)[0]) && !IsWhitespace(Trim(s)[|Trim(s)| - 1])
  {
    var a := TrimStart(s);
    TrimStartSpec(s);
    var t := TrimEnd(a);
    TrimEndSpec(a);
    i := |s| - |a|;
    j := i + |t|;
    assert a == s[i..];
    assert t == a[..|t|];
    assert t == s[i..j];
    assert forall k :: j <= k < |s| ==> s[k] == a[k - i];
    if t != [] {
      assert t[0] == a[0];
    }
  }

  /** A string is blank after trimming exactly when all of it is whitespace. */
  lemma TrimEmpty(s: string)
    ensures Trim(s) == [] <==> forall k :: 0 <= k < |s| ==> IsWhitespace(s[k])
  {
    var i, j := TrimSlice(s);
    if Trim(s) != [] {
      assert s[i] == Trim(s)[0];
    } else {
      assert i == j;
    }
  }

  /** Trimming twice is trimming once. */
  lemma TrimIdempotent(s: string)
    ensures Trim(Trim(s)) == Trim(s)
  {
    var t := Trim(s);
    var i, j := TrimSlice(s);
    if t != [] {
      assert TrimStart(t) == t;
      assert TrimEnd(t) == t;
    }
  }

  /** `filter((_, i) => i !== index)`. */
  function WithoutIndex<T>(xs: seq<T>, index: int): (r: seq<T>)
    ensures |r| == if 0 <= index < |xs| then |xs| - 1 else |xs|
  {
    if xs == [] then []
    else
      var n := |xs| - 1;
      WithoutIndex(xs[..n], index) + (if n == index then [] else [xs[n]])
  }

  /** Removing by index deletes exactly that entry and keeps the rest in
      order; an index outside the list removes nothing. */
  lemma {:induction false} WithoutIndexDeletes<T>(xs: seq<T>, index: int)
    ensures WithoutIndex(xs, index) == if 0 <= index < |xs| then xs[..index] + xs[index + 1..] else xs
  {
    if xs != [] {
      var n := |xs| - 1;
      WithoutIndexDeletes(xs[..n], index);
      assert xs[..n] + [xs[n]] == xs;
      if 0 <= index < n {
        assert xs[..n][..index] == xs[..index];
        assert xs[..n][index + 1..] + [xs[n]] == xs[index + 1..];
      } else if index == n {
        assert xs[..index] + xs[index + 1..] == xs[..n];
      }
    }
  }

  /** The test of `filter(t => t !== tag)`. */
  function Differs(tag: string): string -> bool {
    (t: string) => t != tag
  }

  /** `filter(t => t !== tag)`: every other tag, as often as it occurs, in
      order. */
  function Without(tags: seq<string>, tag: string): (r: seq<string>)
    ensures IsSubsequence(r, tags)
    ensures forall k :: 0 <= k < |r| ==> r[k] != tag
    ensures forall k :: 0 <= k < |tags| && tags[k] != tag ==> tags[k] in r
    ensures forall x :: multiset(r)[x] == if x == tag then 0 else multiset(tags)[x]
  {
    var r := Filter(tags, Differs(tag));
    assert forall k :: 0 <= k < |tags| && tags[k] != tag ==> multiset(r)[tags[k]] > 0;
    r
  }

  /** The tag list holds no duplicate and no blank tag. */
  predicate TagsClean(tags: seq<string>) {
    NoDuplicates(tags) && forall k :: 0 <= k < |tags| ==> Trim(tags[k]) != []
  }

  /** What `addTag` does to the tag list and the input buffer: the trimmed
      input is appended and the buffer cleared when it is non-blank and not
      yet present; otherwise nothing changes. */
  function AfterAddTag(tags: seq<string>, input: string): (r: (seq<string>, string))
    ensures |tags| <= |r.0| <= |tags| + 1 && r.0[..|tags|] == tags
    ensures |r.0| == |tags| + 1 <==> Trim(input) != [] && Trim(input) !in tags
    ensures |r.0| == |tags| + 1 ==> r.0[|tags|] == Trim(input) && r.1 == []
    ensures |r.0| == |tags| ==> r.1 == input
  {
    var t := Trim(input);
    if t != [] && t !in tags then (tags + [t], []) else (tags, input)
  }

  /** `addTag` keeps the tag list free of duplicates and blanks. */
  lemma AddTagKeepsTagsClean(tags: seq<string>, input: string)
    requires TagsClean(tags)
    ensures TagsClean(AfterAddTag(tags, input).0)
  {
    var t := Trim(input);
    if t != [] && t !in tags {
      TrimIdempotent(input);
      var r := tags + [t];
      assert forall k :: 0 <= k < |tags| ==> r[k] == tags[k];
    }
  }

  /** A tag that was added is found in the list afterwards, and an input that
      was blank or present already leaves the list as it was. */
  lemma AddTagOutcome(tags: seq<string>, input: string)
    ensures Trim(input) != [] ==> Trim(input) in AfterAddTag(tags, input).0
    ensures Trim(input) == [] || Trim(input) in tags ==> AfterAddTag(tags, input) == (tags, input)
    ensures |AfterAddTag(tags, input).0| <= |tags| + 1
  {
  }

  lemma {:induction false} SubsequenceKeepsClean(a: seq<string>, b: seq<string>)
    requires IsSubsequence(a, b) && TagsClean(b)
    ensures TagsClean(a)
    decreases |b|
  {
    if a != [] {
      assert b != [];
      if a[0] == b[0] && IsSubsequence(a[1..], b[1..]) {
        assert TagsClean(b[1..]) by {
          assert forall k :: 0 <= k < |b| - 1 ==> b[1..][k] == b[k + 1];
        }
        SubsequenceKeepsClean(a[1..], b[1..]);
        SubsequenceMembers(a[1..], b[1..]);
        assert forall k :: 0 <= k < |a| - 1 ==> a[1..][k] in b[1..];
        assert forall k :: 0 <= k < |b| - 1 ==> b[0] != b[1..][k];
      } else {
        assert TagsClean(b[1..]) by {
          assert forall k :: 0 <= k < |b| - 1 ==> b[1..][k] == b[k + 1];
        }
        SubsequenceKeepsClean(a, b[1..]);
      }
    }
  }

  /** `removeTag` keeps the tag list free of duplicates and blanks, and
      removing a tag just added restores the list. */
  lemma RemoveTagProperties(tags: seq<string>, tag: string)
    ensures TagsClean(tags) ==> TagsClean(Without(tags, tag))
    ensures tag !in tags ==> Without(tags + [tag], tag) == tags
  {
    if TagsClean(tags) {
      SubsequenceKeepsClean(Without(tags, tag), tags);
    }
    if tag !in tags {
      WithoutAbsent(tags, tag);
      WithoutAppend(tags, tag);
    }
  }

  lemma WithoutAbsent(tags: seq<string>, tag: string)
    requires tag !in tags
    ensures Without(tags, tag) == tags
  {
    FilterAll(tags, Differs(tag));
  }

  lemma WithoutAppend(tags: seq<string>, tag: string)
    ensures Without(tags + [tag], tag) == Without(tags, tag)
  {
    FilterAppend(tags, [tag], Differs(tag));
    assert Filter([tag], Differs(tag)) == [];
    assert Without(tags, tag) + [] == Without(tags, tag);
  }

  /** `updateIngredient`'s write `newIngredients[index][field] = value`. */
  function WithField(ing: Ingredient, field: Field, value: string): (r: Ingredient)
    ensures field == Name ==> r.name == value && r.amount == ing.amount
    ensures field == Amount ==> r.amount == value && r.name == ing.name
  {
    match field
    case Name => ing.(name := value)
    case Amount => ing.(amount := value)
  }

  /** An ingredient row with both fields filled in. */
  predicate Filled(ing: Ingredient) {
    ing.name != [] && ing.amount != []
  }

  /** `ingredients.filter(ing => ing.name && ing.amount)`: the rows with both
      fields non-empty, untrimmed, in order, each as often as it occurs. */
  function KeptIngredients(ings: seq<Ingredient>): (r: seq<Ingredient>)
    ensures IsSubsequence(r, ings)
    ensures forall k :: 0 <= k < |r| ==> r[k].name != [] && r[k].amount != []
    ensures forall k :: 0 <= k < |ings| && ings[k].name != [] && ings[k].amount != [] ==> ings[k] in r
    ensures forall x :: multiset(r)[x] == if x.name != [] && x.amount != [] then multiset(ings)[x] else 0
  {
    var r := Filter(ings, Filled);
    assert forall k :: 0 <= k < |ings| && Filled(ings[k]) ==> multiset(r)[ings[k]] > 0;
    r
  }

  /** A step that is not all whitespace. */
  predicate NotBlank(step: string) {
    Trim(step) != []
  }

  /** `steps.filter(step => step.trim())`: the steps that are not all
      whitespace, sent as they were typed, in order, each as often as it
      occurs. */
  function KeptSteps(steps: seq<string>): (r: seq<string>)
    ensures IsSubsequence(r, steps)
    ensures forall k :: 0 <= k < |r| ==> Trim(r[k]) != []
    ensures forall k :: 0 <= k < |steps| && Trim(steps[k]) != [] ==> steps[k] in r
    ensures forall x :: multiset(r)[x] == if Trim(x) != [] then multiset(steps)[x] else 0
  {
    var r := Filter(steps, NotBlank);
    assert forall k :: 0 <= k < |steps| && NotBlank(steps[k]) ==> multiset(r)[steps[k]] > 0;
    r
  }

  /** `value || null` for a string field. */
  function NullIfEmpty(s: string): (r: Option<string>)
    ensures r.None? <==> s == []
    ensures r.Some? ==> r.value == s
  {
    if s == [] then None else Some(s)
  }

  datatype HttpMethod = Post | Put

  /** The JSON body `handleSubmit` sends. */
  datatype Payload = Payload(
    title: string,
    coverImage: Option<string>,
    ingredients: seq<Ingredient>,
    steps: seq<string>,
    tags: seq<string>,
    tip: Option<string>)

  datatype Request = Request(verb: HttpMethod, url: string, payload: Payload)

  /** `isEditMode = !!recipeId`: an id that is missing or empty means a new recipe. */
  predicate IsEditMode(recipeId: Option<string>) {
    recipeId.Some? && recipeId.value != []
  }

  /** The method and URL `handleSubmit` chooses. */
  function Target(recipeId: Option<string>): (r: (HttpMethod, string))
    ensures IsEditMode(recipeId) ==> r == (Put, "/api/recipes/" + recipeId.value)
    ensures !IsEditMode(recipeId) ==> r == (Post, "/api/recipes")
  {
    if IsEditMode(recipeId) then (Put, "/api/recipes/" + recipeId.value) else (Post, "/api/recipes")
  }

  /** What the API receives when the payload is parsed as JSON. */
  function AsCreateBody(p: Payload): (b: RecipesApi.CreateBody)
  {
    RecipesApi.CreateBody(Some(p.title), p.coverImage, p.tip, Some(p.ingredients), Some(p.steps), Some(p.tags))
  }

  /** A recipe as `GET /api/recipes/{id}` returns it to the editor. */
  datatype Fetched = Fetched(
    title: string,
    coverImage: Option<string>,
    ingredients: seq<RecipesApi.IngredientRow>,
    steps: seq<RecipesApi.StepRow>,
    tagNames: seq<string>,
    tip: Option<string>)

  /** `data.ingredients.map(ing => ({ name: ing.name, amount: ing.amount }))`. */
  function LoadedIngredients(rows: seq<RecipesApi.IngredientRow>): (r: seq<Ingredient>)
    ensures |r| == |rows|
    ensures forall k :: 0 <= k < |r| ==> r[k].name == rows[k].name && r[k].amount == rows[k].amount
  {
    if rows == [] then []
    else [RecipesApi.IngredientInput(rows[0].name, rows[0].amount)] + LoadedIngredients(rows[1..])
  }

  /** `data.steps.map(step => step.instruction)`. */
  function LoadedSteps(rows: seq<RecipesApi.StepRow>): (r: seq<string>)
    ensures |r| == |rows|
    ensures forall k :: 0 <= k < |r| ==> r[k] == rows[k].instruction
  {
    if rows == [] then [] else [rows[0].instruction] + LoadedSteps(rows[1..])
  }

  /** `value || ''` for an optional string field. */
  function EmptyIfNull(s: Option<string>): (r: string)
    ensures s.None? ==> r == []
    ensures s.Some? ==> r == s.value
  {
    if s.Some? then s.value else []
  }

  /** Reopening a saved recipe in the editor shows the ingredients and steps
      that were submitted: the rows the API builds load back to the same lists. */
  lemma SaveThenLoadRoundTrip(ings: seq<Ingredient>, steps: seq<string>)
    ensures LoadedIngredients(RecipesApi.IngredientRows(ings)) == ings
    ensures LoadedSteps(RecipesApi.StepRows(steps)) == steps
  {
    var a := LoadedIngredients(RecipesApi.IngredientRows(ings));
    assert forall k :: 0 <= k < |ings| ==> a[k] == ings[k];
  }

  /** Every submitted form has the fields `POST` reads, so a create request
      from the editor fails only when the database write fails. */
  lemma SubmittedBodyIsWellShaped(p: Payload)
    ensures RecipesApi.WellShaped(Some(AsCreateBody(p)))
  {
  }

  /** The editor's state. */
  class RecipeDraft {
    const recipeId: Option<string>
    var title: string
    var coverImage: string
    var ingredients: seq<Ingredient>
    var steps: seq<string>
    var tags: seq<string>
    var tagInput: string
    var tip: string

    /** The initial draft: one blank ingredient, one blank step, no tags, and
        empty title, cover image, tag input and tip. */
    constructor (recipeId: Option<string>)
      ensures this.recipeId == recipeId
      ensures title == [] && coverImage == [] && tip == [] && tagInput == []
      ensures ingredients == [RecipesApi.IngredientInput([], [])]
      ensures steps == [[]]
      ensures tags == []
    {
      this.recipeId := recipeId;
      title := [];
      coverImage := [];
      ingredients := [RecipesApi.IngredientInput([], [])];
      steps := [[]];
      tags := [];
      tagInput := [];
      tip := [];
    }

    /** The edit-mode effect: in edit mode a successful fetch replaces the
        draft with the stored recipe; a failed one (`None`), or create mode,
        leaves the draft as it is. */
    method Load(data: Option<Fetched>)
      modifies this`title, this`coverImage, this`ingredients, this`steps, this`tags, this`tip
      ensures !IsEditMode(recipeId) || data.None? ==>
        && title == old(title) && coverImage == old(coverImage) && ingredients == old(ingredients)
        && steps == old(steps) && tags == old(tags) && tip == old(tip)
      ensures IsEditMode(recipeId) && data.Some? ==>
        && title == data.value.title
        && coverImage == EmptyIfNull(data.value.coverImage)
        && ingredients == LoadedIngredients(data.value.ingredients)
        && steps == LoadedSteps(data.value.steps)
        && tags == data.value.tagNames
        && tip == EmptyIfNull(data.value.tip)
    {
      if IsEditMode(recipeId) && data.Some? {
        var d := data.value;
        title := d.title;
        coverImage := EmptyIfNull(d.coverImage);
        ingredients := LoadedIngredients(d.ingredients);
        steps := LoadedSteps(d.steps);
        tags := d.tagNames;
        tip := EmptyIfNull(d.tip);
      }
    }

    method SetTitle(value: string)
      modifies this`title
      ensures title == value
    {
      title := value;
    }

    method SetCoverImage(value: string)
      modifies this`coverImage
      ensures coverImage == value
    {
      coverImage := value;
    }

    method SetTagInput(value: string)
      modifies this`tagInput
      ensures tagInput == value
    {
      tagInput := value;
    }

    method SetTip(value: string)
      modifies this`tip
      ensures tip == value
    {
      tip := value;
    }

    /** Appends one blank ingredient; the existing ones are unchanged. */
    method AddIngredient()
      modifies this`ingredients
      ensures ingredients == old(ingredients) + [RecipesApi.IngredientInput([], [])]
    {
      ingredients := ingredients + [RecipesApi.IngredientInput([], [])];
    }

    /** Deletes entry `index`; an index outside the list changes nothing. */
    method RemoveIngredient(index: int)
      modifies this`ingredients
      ensures ingredients == WithoutIndex(old(ingredients), index)
      ensures ingredients == if 0 <= index < |old(ingredients)|
        then old(ingredients)[..index] + old(ingredients)[index + 1..] else old(ingredients)
    {
      WithoutIndexDeletes(ingredients, index);
      ingredients := WithoutIndex(ingredients, index);
    }

    /** Sets one field of entry `index` and nothing else. */
    method UpdateIngredient(index: int, field: Field, value: string)
      requires 0 <= index < |ingredients|
      modifies this`ingredients
      ensures |ingredients| == |old(ingredients)|
      ensures ingredients[index] == WithField(old(ingredients)[index], field, value)
      ensures forall k :: 0 <= k < |ingredients| && k != index ==> ingredients[k] == old(ingredients)[k]
    {
      ingredients := ingredients[index := WithField(ingredients[index], field, value)];
    }

    /** Appends one blank step; the existing ones are unchanged. */
    method AddStep()
      modifies this`steps
      ensures steps == old(steps) + [[]]
    {
      steps := steps + [[]];
    }

    /** Deletes step `index`; an index outside the list changes nothing. */
    method RemoveStep(index: int)
      modifies this`steps
      ensures steps == WithoutIndex(old(steps), index)
      ensures steps == if 0 <= index < |old(steps)|
        then old(steps)[..index] + old(steps)[index + 1..] else old(steps)
    {
      WithoutIndexDeletes(steps, index);
      steps := WithoutIndex(steps, index);
    }

    /** Replaces step `index` and nothing else. */
    method UpdateStep(index: int, value: string)
      requires 0 <= index < |steps|
      modifies this`steps
      ensures |steps| == |old(steps)| && steps[index] == value
      ensures forall k :: 0 <= k < |steps| && k != index ==> steps[k] == old(steps)[k]
    {
      steps := steps[index := value];
    }

    method AddTag()
      modifies this`tags, this`tagInput
      ensures (tags, tagInput) == AfterAddTag(old(tags), old(tagInput))
      ensures TagsClean(old(tags)) ==> TagsClean(tags)
    {
      var t := Trim(tagInput);
      if t != [] && t !in tags {
        if TagsClean(tags) {
          AddTagKeepsTagsClean(tags, tagInput);
        }
        tags := tags + [t];
        tagInput := [];
      }
    }

    /** Removes every occurrence of `tag` and nothing else. */
    method RemoveTag(tag: string)
      modifies this`tags
      ensures tags == Without(old(tags), tag)
      ensures TagsClean(old(tags)) ==> TagsClean(tags)
    {
      RemoveTagProperties(tags, tag);
      tags := Without(tags, tag);
    }

    /** The request `handleSubmit` sends. */
    function Submission(): (req: Request)
      reads this
      ensures (req.verb, req.url) == Target(recipeId)
      ensures req.payload.title == title
      ensures req.payload.coverImage == NullIfEmpty(coverImage)
      ensures req.payload.tip == NullIfEmpty(tip)
      ensures req.payload.ingredients == KeptIngredients(ingredients)
      ensures req.payload.steps == KeptSteps(steps)
      ensures req.payload.tags == tags
    {
      var (m, url) := Target(recipeId);
      Request(m, url, Payload(title, NullIfEmpty(coverImage), KeptIngredients(ingredients),
                              KeptSteps(steps), tags, NullIfEmpty(tip)))
    }
  }
}
