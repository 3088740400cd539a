# Recipe blog core, modelled in Dafny

This project models the four pieces of sequential logic in a small recipe blog
(a Next.js site backed by a Prisma database):

- **`/api/recipes`** (`recipes_api.dfy`, `slug.dfy`). `GET` lists every stored
  recipe newest first, with its ingredients and steps in ascending `order`.
  `POST` creates one recipe. It derives a URL slug from the title, builds one
  ingredient row and one step row per input entry with `order` set to the
  entry's index, and finds or creates a Tag row for every tag name. Any
  failure becomes a 500 response with a fixed message. The database is the
  class `RecipeStore`: the Recipe table is a sequence and the Tag table is a
  map from its unique name to its id.
- **The recipe editor** (`recipe_form.dfy`). The class `RecipeDraft` holds
  the draft's fields. Its methods are the add/remove/update handlers for
  ingredients, steps and tags. `Submission` builds the request the form
  sends: blank rows are filtered out, empty strings become `null`, and the
  HTTP method and URL depend on edit mode.
- **The blog list** (`blog.dfy`). It derives the distinct categories and tags
  in first-appearance order, counts recipes per category and per tag, and
  filters by an optional category AND an optional tag. The class `BlogPage`
  holds the selection state that the sidebar buttons change.
- **Category seeding** (`seed.dfy`). A fixed list of eleven categories is
  upserted one at a time with an empty update, which makes each upsert an
  insert-if-absent. The Category table is a map from name to order.

`sequences.dfy` holds the generic list facts the modules share:
subsequences, `Array.prototype.filter`, insertion sort by a key, and
first-appearance de-duplication.
`wrappers.dfy` holds `Option`.

JavaScript semantics are written out where they matter:

- truthiness: `!!recipeId`, `if (selectedCategory)`, `filter(Boolean)`, `|| null`, `|| ''`;
- the slug regular expressions;
- the exact character set of `String.prototype.trim`;
- the evaluation order inside `POST`. All tags are resolved before the
  recipe row is written, so tags created for a request whose recipe write
  fails remain in the Tag table.

The editor's code has no difficulty or category fields, although the blog
list reads a `category` field of a recipe. The model follows the code.

## Model

| member | source | states |
|---|---|---|
| Slug.LowerChar | app/api/recipes/route.ts:43 | `toLowerCase` on one character maps each of `A`–`Z` 32 code points down to its letter in `a`–`z` and leaves every other character alone |
| Slug.Lower | app/api/recipes/route.ts:43 | lowercasing keeps the length and lowercases each position on its own |
| Slug.SkipRun | app/api/recipes/route.ts:44 | dropping a run of disallowed characters leaves a string that is empty or starts with an allowed character |
| Slug.Collapse | app/api/recipes/route.ts:44 | after `replace(/[^a-z0-9가-힣]+/g, '-')` only `a`–`z`, `0`–`9`, Hangul syllables and `-` remain, never two `-` in a row; the result is empty only for an empty input; an allowed first character is kept and a disallowed one becomes `-` |
| Slug.ConsCollapsed | app/api/recipes/route.ts:44 | prefixing a slug character keeps a replaced string free of `--` unless it is a `-` before a `-` |
| Slug.KeepAllowedSkipRun | app/api/recipes/route.ts:44 | a skipped run holds no allowed character |
| Slug.CollapseKeepsAllowed | app/api/recipes/route.ts:44 | deleting the `-` from the replaced string leaves exactly the allowed characters of the input, in order |
| Slug.CollapseAllowedPrefix | app/api/recipes/route.ts:44 | a prefix of allowed characters passes through the replacement unchanged |
| Slug.CollapseRun | app/api/recipes/route.ts:44 | a whole run of disallowed characters becomes exactly one `-` |
| Slug.Strip | app/api/recipes/route.ts:45 | `replace(/(^-|-$)/g, '')` removes at most one `-` at the start and at most one at the end and nothing else, never lengthens the string, keeps every non-dash character, and turns a replaced string into a well-formed slug |
| Slug.DropLeadingDash | app/api/recipes/route.ts:45 | the `^-` alternative removes at most one `-`, at the start and nothing else; it keeps the non-dash characters and leaves a replaced string not starting with `-` |
| Slug.DropTrailingDash | app/api/recipes/route.ts:45 | the `-$` alternative removes at most one `-`, at the end and nothing else; it keeps the non-dash characters and leaves a well-formed slug from a replaced string not starting with `-` |
| Slug.Slugify | app/api/recipes/route.ts:42-45 | the slug contains only `a`–`z`, `0`–`9`, Hangul syllables U+AC00–U+D7A3 and `-`, never starts or ends with `-`, never has two consecutive `-`; deleting every `-` leaves exactly the allowed characters of the lowercased title, in order; the slug is the collapsed lowercased title with at most one `-` removed at each end |
| Slug.SlugifyEmpty | app/api/recipes/route.ts:42-45 | the slug is empty exactly when the lowercased title has no allowed character |
| Slug.SlugifyIdempotent | app/api/recipes/route.ts:42-45 | deriving a slug from a slug gives the same slug |
| Slug.SlugifyTwoWords | app/api/recipes/route.ts:42-45 | two words of allowed characters separated by any non-empty run of other characters give `word1-word2` |
| Slug.SlugifyLatinExample | app/api/recipes/route.ts:42-45 | "Spicy!! Soup" gives "spicy-soup" |
| Slug.SlugifyHangulExample | app/api/recipes/route.ts:42-45 | "김치찌개 끓이기" gives "김치찌개-끓이기" |
| RecipesApi.WellShaped | app/api/recipes/route.ts:38-69 | a body can be handled only when it is JSON with a title, ingredients, steps and tags, the four fields the handler dereferences |
| RecipesApi.IngredientRows | app/api/recipes/route.ts:55-60 | one row per input; row i copies the name and amount of input i and has order i |
| RecipesApi.StepRows | app/api/recipes/route.ts:61-66 | one row per step; row i has instruction `steps[i]` and order i |
| Sequences.SortBy | app/api/recipes/route.ts:21-23 | `orderBy` gives a sorted permutation of its input (same length, same multiset) |
| Sequences.InsertByPermutes | app/api/recipes/route.ts:21-23 | inserting into a sorted list adds exactly the new element and loses nothing |
| Sequences.SortBySorted | app/api/recipes/route.ts:9-14 | ordering rows that are already in order changes nothing |
| Sequences.Filter | app/blog/page.tsx:61 | `filter` keeps, in order, every element passing the test, as often as it occurs, and no other |
| Sequences.FilterAppend | app/admin/_components/RecipeForm.tsx:97 | filtering a concatenation filters each part |
| Sequences.FilterAll | app/blog/page.tsx:57-69 | a filter every element passes keeps the whole list |
| Sequences.FilterSame | app/blog/page.tsx:57-69 | two tests that agree on every element filter alike |
| Sequences.FilterFilter | app/blog/page.tsx:57-69 | filtering by one test and then another is filtering once by both |
| RecipesApi.WithChildrenSorted | app/api/recipes/route.ts:9-14 | a recipe's ingredient rows and step rows are each put in ascending `order`, as permutations of the stored rows; every other field is unchanged |
| RecipesApi.AllWithChildrenSorted | app/api/recipes/route.ts:8-14 | every recipe, in place, with its ingredients and steps put in ascending `order` |
| RecipesApi.Listed | app/api/recipes/route.ts:7-24 | the list holds every stored recipe exactly once (a permutation), ordered by `createdAt` descending, each with ingredients and steps sorted by `order` ascending |
| RecipesApi.CreatedChildrenListInOrder | app/api/recipes/route.ts:55-66 | rows built by `POST` are already in `order`, so the list shows them exactly as they were sent |
| RecipesApi.RecipeStore.Get | app/api/recipes/route.ts:5-33 | a failed query gives 500 with "Failed to fetch recipes"; otherwise 200 with the list above |
| RecipesApi.RecipeStore.FindOrCreateTag | app/api/recipes/route.ts:71-79 | an existing tag is returned unchanged; a missing one is created with a fresh id; no other tag and no recipe changes; tag names keep unique ids |
| RecipesApi.RecipeStore.ResolveTags | app/api/recipes/route.ts:68-87 | afterwards every input name has a Tag row, the Tag table gained exactly the input names, pre-existing tags keep their ids, new tags get fresh ids, and id i is the id of name i |
| RecipesApi.RecipeStore.Insert | app/api/recipes/route.ts:48-99 | the created recipe row is appended with the next id; the store's invariants still hold |
| RecipesApi.RecipeStore.Post | app/api/recipes/route.ts:36-109 | a body missing title, ingredients, steps or tags gives 500 "Failed to create recipe" and changes nothing; otherwise the tags are resolved; a failed recipe write gives the same 500 with only the tags added; a successful one gives 201 with the recipe appended: title, slug of the title, cover image, tip, creation time, the ingredient and step rows, and links to exactly the resolved tag ids |
| RecipeForm.IsWhitespace | app/admin/_components/RecipeForm.tsx:90 | the characters `trim()` removes are exactly the ECMAScript WhiteSpace and LineTerminator code points |
| RecipeForm.Trim | app/admin/_components/RecipeForm.tsx:90 | `trim()` never lengthens the string and its result neither starts nor ends with whitespace |
| RecipeForm.TrimSlice | app/admin/_components/RecipeForm.tsx:90 | `trim()` removes a whitespace prefix and a whitespace suffix and returns what lies between, which neither starts nor ends with whitespace |
| RecipeForm.TrimEmpty | app/admin/_components/RecipeForm.tsx:118 | a string trims to empty exactly when every character is whitespace |
| RecipeForm.TrimIdempotent | app/admin/_components/RecipeForm.tsx:90 | trimming a trimmed string changes nothing |
| RecipeForm.RecipeDraft.constructor | app/admin/_components/RecipeForm.tsx:23-31 | the initial draft has exactly one blank ingredient, exactly one blank step, no tags, and empty title, cover image, tag input and tip |
| RecipeForm.LoadedIngredients | app/admin/_components/RecipeForm.tsx:42-45 | one entry per fetched row, with its name and amount |
| RecipeForm.LoadedSteps | app/admin/_components/RecipeForm.tsx:46 | one step per fetched row, its instruction |
| RecipeForm.EmptyIfNull | app/admin/_components/RecipeForm.tsx:41 | `value || ''`: a missing value becomes the empty string, a present one is kept |
| RecipeForm.RecipeDraft.Load | app/admin/_components/RecipeForm.tsx:34-56 | in edit mode a fetched recipe replaces title, cover image, ingredients, steps, tag names and tip; a failed fetch or create mode leaves the draft unchanged |
| RecipeForm.SaveThenLoadRoundTrip | app/admin/_components/RecipeForm.tsx:42-46 | loading the rows `POST` builds from the submitted ingredients and steps gives back exactly those lists |
| RecipeForm.RecipeDraft.SetTitle | app/admin/_components/RecipeForm.tsx:152 | the title becomes the typed value; nothing else changes |
| RecipeForm.RecipeDraft.SetCoverImage | app/admin/_components/RecipeForm.tsx:165 | the cover image becomes the typed value; nothing else changes |
| RecipeForm.RecipeDraft.SetTagInput | app/admin/_components/RecipeForm.tsx:178 | the tag input becomes the typed value; nothing else changes |
| RecipeForm.RecipeDraft.SetTip | app/admin/_components/RecipeForm.tsx:290 | the tip becomes the typed value; nothing else changes |
| RecipeForm.RecipeDraft.AddIngredient | app/admin/_components/RecipeForm.tsx:59-61 | exactly one blank ingredient is appended; existing entries are unchanged |
| RecipeForm.WithoutIndex | app/admin/_components/RecipeForm.tsx:64 | filtering by index loses one entry when the index is in range and none otherwise |
| RecipeForm.WithoutIndexDeletes | app/admin/_components/RecipeForm.tsx:63-65 | filtering by index deletes exactly entry i and keeps the rest in order; an out-of-range i removes nothing |
| RecipeForm.RecipeDraft.RemoveIngredient | app/admin/_components/RecipeForm.tsx:63-65 | the ingredient list loses exactly entry i, or is unchanged for an out-of-range i |
| RecipeForm.WithField | app/admin/_components/RecipeForm.tsx:67-71 | writing one field of an ingredient sets that field and keeps the other |
| RecipeForm.RecipeDraft.UpdateIngredient | app/admin/_components/RecipeForm.tsx:67-71 | for i in range, only the chosen field of entry i changes; every other entry is unchanged |
| RecipeForm.RecipeDraft.AddStep | app/admin/_components/RecipeForm.tsx:74-76 | exactly one blank step is appended; existing steps are unchanged |
| RecipeForm.RecipeDraft.RemoveStep | app/admin/_components/RecipeForm.tsx:78-80 | the step list loses exactly entry i, or is unchanged for an out-of-range i |
| RecipeForm.RecipeDraft.UpdateStep | app/admin/_components/RecipeForm.tsx:82-86 | for i in range, entry i becomes the value; every other step is unchanged |
| RecipeForm.AfterAddTag | app/admin/_components/RecipeForm.tsx:89-94 | the existing tags stay in place; the list grows by one exactly when the trimmed input is non-blank and absent, the new last tag is that trimmed input and the input is cleared; otherwise the input is kept |
| RecipeForm.AddTagKeepsTagsClean | app/admin/_components/RecipeForm.tsx:89-94 | adding a tag keeps the tag list free of duplicates and of blank tags |
| RecipeForm.AddTagOutcome | app/admin/_components/RecipeForm.tsx:89-94 | a non-blank trimmed input is in the list afterwards; a blank or already present one changes neither the list nor the input; the list grows by at most one |
| RecipeForm.RecipeDraft.AddTag | app/admin/_components/RecipeForm.tsx:89-94 | appends the trimmed input and clears the input only when the trimmed value is non-blank and absent, otherwise changes nothing; keeps a clean tag list clean |
| RecipeForm.Without | app/admin/_components/RecipeForm.tsx:97 | filtering out a tag removes every occurrence of it and keeps every other tag, as often as it occurs, in order |
| RecipeForm.RemoveTagProperties | app/admin/_components/RecipeForm.tsx:96-98 | removing a tag keeps a clean list clean, and removing a tag just appended restores the list |
| RecipeForm.RecipeDraft.RemoveTag | app/admin/_components/RecipeForm.tsx:96-98 | the tag list loses every occurrence of the tag and nothing else |
| RecipeForm.KeptIngredients | app/admin/_components/RecipeForm.tsx:117 | the submitted ingredients are, in order, exactly those whose name and amount are both non-empty, untrimmed, each as often as it occurs |
| RecipeForm.KeptSteps | app/admin/_components/RecipeForm.tsx:118 | the submitted steps are, in order, exactly those that are non-blank after trimming, sent as typed, each as often as it occurs |
| RecipeForm.NullIfEmpty | app/admin/_components/RecipeForm.tsx:116 | `value || null`: an empty string becomes null, any other is sent as is |
| RecipeForm.IsEditMode | app/admin/_components/RecipeForm.tsx:17 | `!!recipeId`: edit mode exactly when an id is given and non-empty |
| RecipeForm.Target | app/admin/_components/RecipeForm.tsx:105-106 | edit mode (a non-empty id) sends PUT to `/api/recipes/{id}`; otherwise POST to `/api/recipes` |
| RecipeForm.RecipeDraft.Submission | app/admin/_components/RecipeForm.tsx:105-121 | the request carries the method and URL above, the title, the filtered ingredients and steps, the tags, and cover image and tip with empty mapped to null |
| RecipeForm.SubmittedBodyIsWellShaped | app/admin/_components/RecipeForm.tsx:114-121 | every body the form sends has the fields `POST` reads, so the API's missing-field error cannot come from the editor |
| Sequences.FirstIndex | app/blog/page.tsx:41 | the position of the first occurrence of a value |
| Sequences.Distinct | app/blog/page.tsx:41 | `Array.from(new Set(xs))` holds no duplicates and exactly the members of `xs` |
| Sequences.DistinctFirstAppearance | app/blog/page.tsx:42-44 | the de-duplicated list is in order of first appearance |
| Blog.Truthy | app/blog/page.tsx:60-64 | a selection filters only when it is set and non-empty |
| Blog.CategoryValues | app/blog/page.tsx:41 | the truthy categories: a string is among them exactly when it is non-empty and some recipe has it |
| Blog.CategoryValuesAppend | app/blog/page.tsx:41 | the truthy categories of a concatenation are those of the two parts one after the other, and one recipe contributes its category exactly when it is truthy |
| Blog.Categories | app/blog/page.tsx:41 | `categories` holds each non-empty category of some recipe exactly once |
| Blog.TagNames | app/blog/page.tsx:43 | a name is in the flattened list exactly when some recipe carries it |
| Blog.TagNamesAppend | app/blog/page.tsx:43 | the flattened list of a concatenation is the two flattened lists one after the other, and one recipe contributes its own tag names in their order, duplicates included |
| Blog.AllTags | app/blog/page.tsx:42-44 | `allTags` holds each tag name of some recipe exactly once |
| Blog.SidebarOrder | app/blog/page.tsx:41-44 | categories and tags are listed in the order they first appear |
| Blog.CategoryCount | app/blog/page.tsx:47-49 | the count is the length of the list filtered by the category, so the number of recipes having it |
| Blog.TagCount | app/blog/page.tsx:52-54 | the count is the length of the list filtered by the tag, so the number of recipes carrying it |
| Blog.ListedHavePositiveCounts | app/blog/page.tsx:101-134 | every category and tag offered in the sidebar has a count of at least one |
| Blog.FilterByCategory | app/blog/page.tsx:61 | the category filter keeps, in order, every recipe having that category, as often as it occurs, and no other |
| Blog.FilterByTag | app/blog/page.tsx:65 | the tag filter keeps, in order, every recipe carrying that tag, as often as it occurs, and no other |
| Blog.Filtered | app/blog/page.tsx:57-69 | the filtered list is a subsequence of the recipes; with neither selection truthy it is the whole list |
| Blog.Matching | app/blog/page.tsx:57-69 | the reference filter keeps, in order, exactly the recipes matching both selections, each as often as it occurs |
| Blog.FilteredIsMatching | app/blog/page.tsx:57-69 | the two filters in sequence equal the one-pass AND filter |
| Blog.FilteredLengthIsCount | app/blog/page.tsx:47-66 | with only category c selected the list has `getCategoryCount(c)` entries; with only tag t, `getTagCount(t)` |
| Blog.Toggled | app/blog/page.tsx:125 | clicking the selected tag deselects it; clicking any other tag selects it |
| Blog.ToggleTwice | app/blog/page.tsx:125 | two clicks on one tag restore an empty selection or that tag's selection, and clear a different tag's |
| Blog.BlogPage.constructor | app/blog/page.tsx:22-25 | nothing fetched and nothing selected at first |
| Blog.BlogPage.Shown | app/blog/page.tsx:57-69 | the shown list keeps, in order, exactly the recipes matching the current selections, each as often as it occurs |
| Blog.BlogPage.Loaded | app/blog/page.tsx:27-38 | a successful fetch replaces the recipes; a failed one leaves them |
| Blog.BlogPage.SelectCategory | app/blog/page.tsx:104 | the category selection becomes the clicked category, or none for the "all" button |
| Blog.BlogPage.ClickTag | app/blog/page.tsx:125 | the tag selection is toggled by the clicked tag |
| Blog.BlogPage.ClearFilters | app/blog/page.tsx:141-144 | both selections become null and the whole list is shown |
| SeedCategories.InitialCategoriesNumbered | prisma/seed-categories.ts:6-18 | the list has eleven entries with orders 1 to 11 in list order |
| SeedCategories.InitialCategoriesDistinct | prisma/seed-categories.ts:6-18 | no two entries of the list share a name |
| SeedCategories.Names | prisma/seed-categories.ts:6-18 | a name is in the set exactly when some entry has it |
| SeedCategories.Upserted | prisma/seed-categories.ts:24-28 | an upsert with an empty update adds the name if absent, with its order, and changes no existing row |
| SeedCategories.Seeded | prisma/seed-categories.ts:23-30 | the table after upserting each entry of the list in turn, first to last; what it holds is stated by the lemmas below |
| SeedCategories.SeededKeepsAndAdds | prisma/seed-categories.ts:23-30 | after seeding the table holds exactly its old names plus the listed ones, and every old row keeps its order, so categories not in the list are untouched |
| SeedCategories.SeededInsertsMissing | prisma/seed-categories.ts:27 | a listed category that was missing is inserted with the order of its first entry in the list |
| SeedCategories.SeededWhenAllPresent | prisma/seed-categories.ts:26 | seeding a table that already holds every listed name changes nothing |
| SeedCategories.SeededIdempotent | prisma/seed-categories.ts:24-28 | seeding twice gives the same table as seeding once |
| SeedCategories.CategoryTable.Upsert | prisma/seed-categories.ts:24-28 | one upsert changes the table as `Upserted` says |
| SeedCategories.InitialCategoriesInserted | prisma/seed-categories.ts:6-30 | seeding the fixed list gives every category that was missing the order equal to its position plus one |
| SeedCategories.UpsertAll | prisma/seed-categories.ts:23-30 | the loop leaves the table as upserting the list in order does |
| SeedCategories.Seed | prisma/seed-categories.ts:20-30 | `main` leaves the table as seeding the fixed list in order does: every listed name present, present ones keep their order, missing ones get order i+1 |

## Left out

- Slug.LowerChar: `toLowerCase` is modelled on ASCII `A`–`Z` only. Full Unicode case mapping (Latin-1 capitals, Greek, Cyrillic and so on) is not.
- RecipesApi.RecipeStore.ResolveTags: tags are resolved one after the other, while the source resolves them concurrently with `Promise.all`, so every lookup can run before any create. When one request names the same new tag twice, the source's second `tag.create` fails on the unique tag name, nothing is created for the recipe, the tag from the first create stays, and the answer is 500; the model instead creates the tag once and answers 201 with that tag linked twice. Two requests at once that both create one new tag name are not modelled either.
- RecipesApi.RecipeStore.Post: a failing `findUnique` or tag `create` is not modelled. Neither are body fields of the wrong JSON type, such as a non-string title or a null ingredient.
- RecipesApi.RecipeStore.Post: a failed recipe write, including a slug that collides with a unique index, is the input flag `stored`. The database's own checks are not modelled.
- RecipesApi.RecipeStore.Get: the query failing is the input flag `available`.
- RecipesApi.RecipeStore.Get: the tag join is returned as tag ids, not as nested tag rows.
- The database's `id` strings and its clock are not modelled. Ids are counters in the store, and the creation time is a parameter of `Post`.
- RecipeForm.RecipeDraft.Load: a response whose JSON is an error object sets the title to `undefined` and the cover image to `''` before the ingredient mapping throws. The model treats that response like a failed fetch, which leaves the draft unchanged.
- RecipeForm.RecipeDraft.UpdateIngredient: the source writes into the shared ingredient object, which aliases the previous state's entry. The model replaces the entry with a new value.
- RecipeForm.RecipeDraft.Submission: the `loading`/`fetching` flags, `fetch` itself, the alerts and the router navigation are not modelled. Only the request that would be sent is modelled.
- `app/api/recipes/[id]/route.ts` is not part of this model: the `GET` by id feeding the editor, and the `PUT` and `DELETE` handlers.
- Blog.BlogPage.Shown: the `filteredRecipes` state is the value the filter effect computes once it has run. `useEffect` scheduling is not modelled.
- Blog.BlogRecipe: tags are flattened to their names. Nested `{ tag: { name } }` objects are not modelled.
- The `Math.random` comment counts, page rendering and styling of the blog list are not modelled.
- SeedCategories.Seed: the console output, the `exit(1)` on a database error and the disconnect are not modelled. The Category table is modelled as name → order; its other columns are not.
