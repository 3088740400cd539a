/** The `/api/recipes` endpoint: `GET` lists the stored recipes, `POST`
    creates one recipe with its ingredient rows, step rows and tag links.
    The database is the `RecipeStore` object; its tables are fields. */
module RecipesApi {
  import opened Wrappers
  import opened Sequences
  import Slug

  /** One ingredient as the client sends it. */
  datatype IngredientInput = IngredientInput(name: string, amount: string)

  /** A row of the Ingredient table; `order` is its position in the recipe. */
  datatype IngredientRow = IngredientRow(name: string, amount: string, order: int)

  /** A row of the Step table. */
  datatype StepRow = StepRow(instruction: string, order: int)

  /** A row of the Recipe table together with its child rows and the ids of
      the tags it is linked to through the RecipeTag join table. */
  datatype Recipe = Recipe(
    id: nat,
    title: string,
    slug: string,
    coverImage: Option<string>,
    tip: Option<string>,
    createdAt: int,
    ingredients: seq<IngredientRow>,
    steps: seq<StepRow>,
    tagIds: seq<nat>)

  /** The JSON body of a `POST`; a field the client left out is `None`. */
  datatype CreateBody = CreateBody(
    title: Option<string>,
    coverImage: Option<string>,
    tip: Option<string>,
    ingredients: Option<seq<IngredientInput>>,
    steps: Option<seq<string>>,
    tags: Option<seq<string>>)

  /** An HTTP response: a JSON value with its status, or `{ error }` with its status. */
  datatype Response<T> = Json(status: nat, value: T) | Error(status: nat, message: string)

  const FetchFailed := "Failed to fetch recipes"
  const CreateFailed := "Failed to create recipe"

  /** The handler reads `title.toLowerCase()`, `ingredients.map`, `steps.map`
      and `tags.map`; each throws when its field is missing, and so does a
      body that is not JSON at all. */
  predicate WellShaped(body: Option<CreateBody>) {
    && body.Some?
    && body.value.title.Some?
    && body.value.ingredients.Some?
    && body.value.steps.Some?
    && body.value.tags.Some?
  }

  /** `ingredients.map((ing, index) => ({ name, amount, order: index }))`. */
  function IngredientRows(ings: seq<IngredientInput>): (rows: seq<IngredientRow>)
    ensures |rows| == |ings|
    ensures forall i :: 0 <= i < |rows| ==>
      rows[i].name == ings[i].name && rows[i].amount == ings[i].amount && rows[i].order == i
  {
    if ings == [] then []
    else
      var n := |ings| - 1;
      IngredientRows(ings[..n]) + [IngredientRow(ings[n].name, ings[n].amount, n)]
  }

  /** `steps.map((step, index) => ({ instruction: step, order: index }))`. */
  function StepRows(steps: seq<string>): (rows: seq<StepRow>)
    ensures |rows| == |steps|
    ensures forall i :: 0 <= i < |rows| ==> rows[i].instruction == steps[i] && rows[i].order == i
  {
    if steps == [] then []
    else
      var n := |steps| - 1;
      StepRows(steps[..n]) + [StepRow(steps[n], n)]
  }

  function IngredientOrder(row: IngredientRow): int { row.order }
  function StepOrder(row: StepRow): int { row.order }
  function NewestFirst(r: Recipe): int { -r.createdAt }

  /** `include: { ingredients: { orderBy: { order: 'asc' } }, steps: { orderBy: { order: 'asc' } } }`:
      the same recipe with its ingredient rows and its step rows each
      rearranged into ascending `order`. */
  function WithChildrenSorted(rec: Recipe): (r: Recipe)
    ensures r.(ingredients := rec.ingredients, steps := rec.steps) == rec
    ensures SortedBy(r.ingredients, IngredientOrder) && multiset(r.ingredients) == multiset(rec.ingredients)
    ensures SortedBy(r.steps, StepOrder) && multiset(r.steps) == multiset(rec.steps)
  {
    rec.(ingredients := SortBy(rec.ingredients, IngredientOrder), steps := SortBy(rec.steps, StepOrder))
  }

  function AllWithChildrenSorted(table: seq<Recipe>): (r: seq<Recipe>)
    ensures |r| == |table|
    ensures forall i :: 0 <= i < |r| ==> r[i] == WithChildrenSorted(table[i])
  {
    if table == [] then [] else [WithChildrenSorted(table[0])] + AllWithChildrenSorted(table[1..])
  }

  /** The recipe list of `GET`: every stored recipe once, newest first, each
      with its ingredients and steps in ascending `order`. */
  function Listed(table: seq<Recipe>): (r: seq<Recipe>)
    ensures |r| == |table|
    ensures multiset(r) == multiset(AllWithChildrenSorted(table))
    ensures forall i, j :: 0 <= i < j < |r| ==> r[i].createdAt >= r[j].createdAt
    ensures forall i :: 0 <= i < |r| ==>
      SortedBy(r[i].ingredients, IngredientOrder) && SortedBy(r[i].steps, StepOrder)
  {
    var all := AllWithChildrenSorted(table);
    var r := SortBy(all, NewestFirst);
    assert forall i, j :: 0 <= i < j < |r| ==> NewestFirst(r[i]) <= NewestFirst(r[j]);
    ChildrenSortedAfterSort(table, all, r);
    r
  }

  lemma ChildrenSortedAfterSort(table: seq<Recipe>, all: seq<Recipe>, r: seq<Recipe>)
    requires all == AllWithChildrenSorted(table)
    requires multiset(r) == multiset(all)
    ensures forall i :: 0 <= i < |r| ==>
      SortedBy(r[i].ingredients, IngredientOrder) && SortedBy(r[i].steps, StepOrder)
  {
    forall i | 0 <= i < |r|
      ensures SortedBy(r[i].ingredients, IngredientOrder) && SortedBy(r[i].steps, StepOrder)
    {
      assert r[i] in multiset(all);
      var k :| 0 <= k < |all| && all[k] == r[i];
      assert r[i] == WithChildrenSorted(table[k]);
    }
  }

  /** Rows built from the request are already in `order`, so a recipe created
      by `POST` is listed with its ingredients and steps exactly as sent. */
  lemma CreatedChildrenListInOrder(ings: seq<IngredientInput>, steps: seq<string>)
    ensures SortBy(IngredientRows(ings), IngredientOrder) == IngredientRows(ings)
    ensures SortBy(StepRows(steps), StepOrder) == StepRows(steps)
  {
    var ir, sr := IngredientRows(ings), StepRows(steps);
    assert SortedBy(ir, IngredientOrder) by {
      assert forall i :: 0 <= i < |ir| ==> IngredientOrder(ir[i]) == i;
    }
    assert SortedBy(sr, StepOrder) by {
      assert forall i :: 0 <= i < |sr| ==> StepOrder(sr[i]) == i;
    }
    SortBySorted(ir, IngredientOrder);
    SortBySorted(sr, StepOrder);
  }

  /** The distinct names of a list of tag names. */
  function NameSet(names: seq<string>): (s: set<string>)
    ensures forall n :: n in s <==> n in names
  {
    set n | n in names
  }

  lemma NameSetSnoc(names: seq<string>, i: nat)
    requires i < |names|
    ensures NameSet(names[..i + 1]) == NameSet(names[..i]) + {names[i]}
  {
    assert names[..i + 1] == names[..i] + [names[i]];
  }

  /** The database: the Recipe table (with its child rows), the Tag table
      keyed by its unique name, and the next ids the database hands out. */
  class RecipeStore {
    var recipes: seq<Recipe>
    var tags: map<string, nat>
    var nextRecipeId: nat
    var nextTagId: nat

    /** Tag ids are unique and below `nextTagId`; recipe ids are unique and
        below `nextRecipeId`; every tag link names an existing tag. */
    ghost predicate Valid()
      reads this
    {
      && (forall n :: n in tags ==> tags[n] < nextTagId)
      && (forall n, m :: n in tags && m in tags && n != m ==> tags[n] != tags[m])
      && (forall i :: 0 <= i < |recipes| ==> recipes[i].id < nextRecipeId)
      && (forall i, j :: 0 <= i < j < |recipes| ==> recipes[i].id != recipes[j].id)
      && (forall i, k :: 0 <= i < |recipes| && 0 <= k < |recipes[i].tagIds| ==>
            recipes[i].tagIds[k] in tags.Values)
    }

    constructor ()
      ensures Valid()
      ensures recipes == [] && tags == map[]
    {
      recipes := [];
      tags := map[];
      nextRecipeId := 0;
      nextTagId := 0;
    }

    /** `GET /api/recipes`; `available` is false when the query fails. */
    function Get(available: bool): (resp: Response<seq<Recipe>>)
      reads this
      ensures resp.Error? <==> !available
      ensures resp.Error? ==> resp.status == 500 && resp.message == FetchFailed
      ensures resp.Json? ==>
        && resp.status == 200
        && |resp.value| == |recipes|
        && multiset(resp.value) == multiset(AllWithChildrenSorted(recipes))
        && (forall i, j :: 0 <= i < j < |resp.value| ==> resp.value[i].createdAt >= resp.value[j].createdAt)
        && (forall i :: 0 <= i < |resp.value| ==>
              SortedBy(resp.value[i].ingredients, IngredientOrder) && SortedBy(resp.value[i].steps, StepOrder))
    {
      if available then Json(200, Listed(recipes)) else Error(500, FetchFailed)
    }

    /** `prisma.tag.findUnique({ where: { name } })`, then `prisma.tag.create`
        when there is none. */
    method FindOrCreateTag(name: string) returns (id: nat)
      requires Valid()
      modifies this
      ensures Valid()
      ensures recipes == old(recipes) && nextRecipeId == old(nextRecipeId)
      ensures name in tags && id == tags[name]
      ensures tags.Keys == old(tags).Keys + {name}
      ensures forall n :: n in old(tags) ==> n in tags && tags[n] == old(tags)[n]
      ensures name in old(tags) ==> tags == old(tags) && nextTagId == old(nextTagId)
      ensures name !in old(tags) ==>
        tags == old(tags)[name := old(nextTagId)] && nextTagId == old(nextTagId) + 1
    {
      if name in tags {
        id := tags[name];
      } else {
        id := nextTagId;
        ghost var before := tags;
        tags := tags[name := id];
        nextTagId := nextTagId + 1;
        assert forall v :: v in before.Values ==> v in tags.Values by {
          forall v | v in before.Values ensures v in tags.Values {
            var n :| n in before && before[n] == v;
            assert n != name && tags[n] == v;
          }
        }
      }
    }

    /** The tag names of a new recipe resolved one after the other. */
    method ResolveTags(names: seq<string>) returns (ids: seq<nat>)
      requires Valid()
      modifies this
      ensures Valid()
      ensures recipes == old(recipes) && nextRecipeId == old(nextRecipeId)
      ensures |ids| == |names|
      ensures forall i :: 0 <= i < |names| ==> names[i] in tags && ids[i] == tags[names[i]]
      ensures tags.Keys == old(tags).Keys + NameSet(names)
      ensures forall n :: n in old(tags) ==> tags[n] == old(tags)[n]
      ensures forall n :: n in tags && n !in old(tags) ==> old(nextTagId) <= tags[n]
    {
      ids := [];
      var i := 0;
      while i < |names|
        invariant 0 <= i <= |names| && |ids| == i
        invariant Valid()
        invariant recipes == old(recipes) && nextRecipeId == old(nextRecipeId)
        invariant forall k :: 0 <= k < i ==> names[k] in tags && ids[k] == tags[names[k]]
        invariant tags.Keys == old(tags).Keys + NameSet(names[..i])
        invariant forall n :: n in old(tags) ==> n in tags && tags[n] == old(tags)[n]
        invariant forall n :: n in tags && n !in old(tags) ==> old(nextTagId) <= tags[n]
        invariant old(nextTagId) <= nextTagId
      {
        ghost var before, beforeIds := tags, ids;
        var id := FindOrCreateTag(names[i]);
        NameSetSnoc(names, i);
        assert tags.Keys == old(tags).Keys + NameSet(names[..i + 1]);
        ids := ids + [id];
        forall k | 0 <= k < i + 1
          ensures names[k] in tags && ids[k] == tags[names[k]]
        {
          if k < i {
            assert ids[k] == beforeIds[k] && names[k] in before;
          }
        }
        i := i + 1;
      }
      assert names[..i] == names;
    }

    /** `POST /api/recipes`. `now` is the creation time the database stamps;
        `stored` is false when `prisma.recipe.create` fails. The tags are
        found or created before the recipe row is written, so they remain
        even when that write fails. */
    method Post(body: Option<CreateBody>, now: int, stored: bool) returns (resp: Response<Recipe>)
      requires Valid()
      modifies this
      ensures Valid()
      ensures resp.Error? ==> resp.status == 500 && resp.message == CreateFailed
      ensures !WellShaped(body) ==>
        && resp.Error?
        && recipes == old(recipes) && tags == old(tags)
        && nextRecipeId == old(nextRecipeId) && nextTagId == old(nextTagId)
      ensures WellShaped(body) ==>
        var names := body.value.tags.value;
        && tags.Keys == old(tags).Keys + NameSet(names)
        && (forall n :: n in old(tags) ==> n in tags && tags[n] == old(tags)[n])
        && (resp.Json? <==> stored)
        && (!stored ==> recipes == old(recipes))
      ensures WellShaped(body) && stored ==>
        var b := body.value;
        && resp.status == 201
        && recipes == old(recipes) + [resp.value]
        && resp.value.id == old(nextRecipeId)
        && resp.value.title == b.title.value
        && resp.value.slug == Slug.Slugify(b.title.value)
        && resp.value.coverImage == b.coverImage
        && resp.value.tip == b.tip
        && resp.value.createdAt == now
        && resp.value.ingredients == IngredientRows(b.ingredients.value)
        && resp.value.steps == StepRows(b.steps.value)
        && |resp.value.tagIds| == |b.tags.value|
        && (forall i :: 0 <= i < |b.tags.value| ==>
              b.tags.value[i] in tags && resp.value.tagIds[i] == tags[b.tags.value[i]])
    {
      if !WellShaped(body) {
        return Error(500, CreateFailed);
      }
      var b := body.value;
      var title := b.title.value;
      var slug := Slug.Slugify(title);
      var ingredientRows := IngredientRows(b.ingredients.value);
      var stepRows := StepRows(b.steps.value);
      var tagIds := ResolveTags(b.tags.value);
      if !stored {
        return Error(500, CreateFailed);
      }
      var recipe := Recipe(nextRecipeId, title, slug, b.coverImage, b.tip, now,
                           ingredientRows, stepRows, tagIds);
      Insert(recipe);
      resp := Json(201, recipe);
    }

    /** `prisma.recipe.create` writing the new row: the recipe takes the next
        id and every tag it links to exists. */
    method Insert(recipe: Recipe)
      requires Valid()
      requires recipe.id == nextRecipeId
      requires forall k :: 0 <= k < |recipe.tagIds| ==>
        exists n :: n in tags && tags[n] == recipe.tagIds[k]
      modifies this`recipes, this`nextRecipeId
      ensures Valid()
      ensures recipes == old(recipes) + [recipe]
      ensures nextRecipeId == old(nextRecipeId) + 1
    {
      recipes := recipes + [recipe];
      nextRecipeId := nextRecipeId + 1;
    }
  }
}
