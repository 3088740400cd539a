/** The public recipe list: the category and tag sidebars derived from the
    fetched recipes, their counts, the category/tag filter, and the page's
    selection state. */
module Blog {
  import opened Wrappers
  import opened Sequences

  /** A recipe as the list page sees it; `tags` holds the tag names in the
      order the API returned them. */
  datatype BlogRecipe = BlogRecipe(id: string, title: string, category: Option<string>, tags: seq<string>)

  /** JavaScript truthiness of a `string | null` selection: set and non-empty. */
  predicate Truthy(sel: Option<string>) {
    sel.Some? && sel.value != []
  }

  /** `recipes.map(r => r.category).filter(Boolean)`. */
  function CategoryValues(rs: seq<BlogRecipe>): (r: seq<string>)
    ensures forall c :: c in r <==> c != [] && exists k :: 0 <= k < |rs| && rs[k].category == Some(c)
  {
    if rs == [] then []
    else
      var rest := CategoryValues(rs[1..]);
      assert forall k :: 1 <= k < |rs| ==> rs[k] == rs[1..][k - 1];
      if Truthy(rs[0].category) then [rs[0].category.value] + rest else rest
  }

  /** `categories`: the distinct non-empty categories. */
  function Categories(rs: seq<BlogRecipe>): (r: seq<string>)
    ensures NoDuplicates(r)
    ensures forall c :: c in r <==> c != [] && exists k :: 0 <= k < |rs| && rs[k].category == Some(c)
  {
    Distinct(CategoryValues(rs))
  }

  /** `recipes.flatMap(r => r.tags.map(t => t.tag.name))`. */
  function TagNames(rs: seq<BlogRecipe>): (r: seq<string>)
    ensures forall t :: t in r <==> exists k :: 0 <= k < |rs| && t in rs[k].tags
  {
    if rs == [] then []
    else
      var rest := TagNames(rs[1..]);
      assert forall k :: 1 <= k < |rs| ==> rs[k] == rs[1..][k - 1];
      rs[0].tags + rest
  }

  /** `allTags`: the distinct tag names over all recipes. */
  function AllTags(rs: seq<BlogRecipe>): (r: seq<string>)
    ensures NoDuplicates(r)
    ensures forall t :: t in r <==> exists k :: 0 <= k < |rs| && t in rs[k].tags
  {
    Distinct(TagNames(rs))
  }

  /** `map` then `filter(Boolean)` works recipe by recipe: the values of a
      concatenation are the values of each part, in order, and one recipe
      contributes its category exactly when that category is truthy. */
  lemma {:induction false} CategoryValuesAppend(a: seq<BlogRecipe>, b: seq<BlogRecipe>)
    ensures CategoryValues(a + b) == CategoryValues(a) + CategoryValues(b)
    ensures |a| == 1 ==> CategoryValues(a) == if Truthy(a[0].category) then [a[0].category.value] else []
  {
    if a == [] {
      assert a + b == b;
    } else {
      assert (a + b)[0] == a[0];
      assert (a + b)[1..] == a[1..] + b;
      CategoryValuesAppend(a[1..], b);
    }
  }

  /** `flatMap` works recipe by recipe: the names of a concatenation are the
      names of each part, in order, and one recipe contributes its own tag
      list unchanged, duplicates included. */
  lemma {:induction false} TagNamesAppend(a: seq<BlogRecipe>, b: seq<BlogRecipe>)
    ensures TagNames(a + b) == TagNames(a) + TagNames(b)
    ensures |a| == 1 ==> TagNames(a) == a[0].tags
  {
    if a == [] {
      assert a + b == b;
    } else {
      assert (a + b)[0] == a[0];
      assert (a + b)[1..] == a[1..] + b;
      TagNamesAppend(a[1..], b);
      assert a[0].tags + (TagNames(a[1..]) + TagNames(b)) == (a[0].tags + TagNames(a[1..])) + TagNames(b);
    }
  }

  /** The sidebars list categories and tags in the order in which they first
      appear in the fetched list. */
  lemma SidebarOrder(rs: seq<BlogRecipe>)
    ensures forall i, j :: 0 <= i < j < |Categories(rs)| ==>
      FirstIndex(CategoryValues(rs), Categories(rs)[i]) < FirstIndex(CategoryValues(rs), Categories(rs)[j])
    ensures forall i, j :: 0 <= i < j < |AllTags(rs)| ==>
      FirstIndex(TagNames(rs), AllTags(rs)[i]) < FirstIndex(TagNames(rs), AllTags(rs)[j])
  {
    DistinctFirstAppearance(CategoryValues(rs));
    DistinctFirstAppearance(TagNames(rs));
  }

  /** `getCategoryCount(category)`: the length of the list filtered by
      that category. */
  function CategoryCount(rs: seq<BlogRecipe>, category: string): (n: nat)
    ensures n == |FilterByCategory(rs, category)|
  {
    if rs == [] then 0
    else (if rs[0].category == Some(category) then 1 else 0) + CategoryCount(rs[1..], category)
  }

  /** `getTagCount(tag)`: the length of the list filtered by that tag. */
  function TagCount(rs: seq<BlogRecipe>, tag: string): (n: nat)
    ensures n == |FilterByTag(rs, tag)|
  {
    if rs == [] then 0
    else (if tag in rs[0].tags then 1 else 0) + TagCount(rs[1..], tag)
  }

  /** Every category and every tag offered in the sidebar has a non-zero count. */
  lemma {:induction false} ListedHavePositiveCounts(rs: seq<BlogRecipe>, c: string, t: string)
    ensures c in Categories(rs) ==> CategoryCount(rs, c) > 0
    ensures t in AllTags(rs) ==> TagCount(rs, t) > 0
  {
    if rs != [] {
      ListedHavePositiveCounts(rs[1..], c, t);
      assert forall k :: 1 <= k < |rs| ==> rs[k] == rs[1..][k - 1];
    }
  }

  /** The category test of the filter. */
  function HasCategory(category: string): BlogRecipe -> bool {
    (r: BlogRecipe) => r.category == Some(category)
  }

  /** The tag test of the filter. */
  function HasTag(tag: string): BlogRecipe -> bool {
    (r: BlogRecipe) => tag in r.tags
  }

  /** `filtered.filter(r => r.category === selectedCategory)`: every recipe
      of that category, as often as it occurs, in order, and no other. */
  function FilterByCategory(rs: seq<BlogRecipe>, category: string): (r: seq<BlogRecipe>)
    ensures IsSubsequence(r, rs)
    ensures forall k :: 0 <= k < |r| ==> r[k].category == Some(category)
    ensures forall x :: multiset(r)[x] == if x.category == Some(category) then multiset(rs)[x] else 0
  {
    Filter(rs, HasCategory(category))
  }

  /** `filtered.filter(r => r.tags.some(t => t.tag.name === selectedTag))`:
      every recipe carrying that tag, as often as it occurs, in order, and no
      other. */
  function FilterByTag(rs: seq<BlogRecipe>, tag: string): (r: seq<BlogRecipe>)
    ensures IsSubsequence(r, rs)
    ensures forall k :: 0 <= k < |r| ==> tag in r[k].tags
    ensures forall x :: multiset(r)[x] == if tag in x.tags then multiset(rs)[x] else 0
  {
    Filter(rs, HasTag(tag))
  }

  /** The filter effect: the category filter when a category is selected,
      then the tag filter when a tag is selected. */
  function Filtered(rs: seq<BlogRecipe>, selCategory: Option<string>, selTag: Option<string>): (r: seq<BlogRecipe>)
    ensures IsSubsequence(r, rs)
    ensures !Truthy(selCategory) && !Truthy(selTag) ==> r == rs
  {
    var byCategory := if Truthy(selCategory) then FilterByCategory(rs, selCategory.value) else rs;
    assert IsSubsequence(byCategory, rs) by {
      if !Truthy(selCategory) {
        SubsequenceReflexive(rs);
      }
    }
    if Truthy(selTag) then
      var r := FilterByTag(byCategory, selTag.value);
      SubsequenceTransitive(r, byCategory, rs);
      r
    else byCategory
  }

  /** A recipe passes the filter when it has the selected category (if one
      is selected) and carries the selected tag (if one is selected). */
  predicate Matches(r: BlogRecipe, selCategory: Option<string>, selTag: Option<string>) {
    && (Truthy(selCategory) ==> r.category == Some(selCategory.value))
    && (Truthy(selTag) ==> selTag.value in r.tags)
  }

  /** Both tests of the filter as one. */
  function MatchesBoth(selCategory: Option<string>, selTag: Option<string>): BlogRecipe -> bool {
    (r: BlogRecipe) => Matches(r, selCategory, selTag)
  }

  /** A one-pass reference for the filter: the recipes that match both
      selections, in their original order, each as often as it occurs. */
  function Matching(rs: seq<BlogRecipe>, selCategory: Option<string>, selTag: Option<string>): (r: seq<BlogRecipe>)
    ensures IsSubsequence(r, rs)
    ensures forall k :: 0 <= k < |r| ==> Matches(r[k], selCategory, selTag)
    ensures forall k :: 0 <= k < |rs| && Matches(rs[k], selCategory, selTag) ==> rs[k] in r
    ensures forall x :: multiset(r)[x] == if Matches(x, selCategory, selTag) then multiset(rs)[x] else 0
  {
    var r := Filter(rs, MatchesBoth(selCategory, selTag));
    assert forall k :: 0 <= k < |rs| && Matches(rs[k], selCategory, selTag) ==> multiset(r)[rs[k]] > 0;
    r
  }

  /** The two filters applied one after the other keep exactly the recipes
      that match both selections, in order: the filter is an AND. */
  lemma FilteredIsMatching(rs: seq<BlogRecipe>, selCategory: Option<string>, selTag: Option<string>)
    ensures Filtered(rs, selCategory, selTag) == Matching(rs, selCategory, selTag)
  {
    var both := MatchesBoth(selCategory, selTag);
    if Truthy(selCategory) && Truthy(selTag) {
      FilterFilter(rs, HasCategory(selCategory.value), HasTag(selTag.value), both);
    } else if Truthy(selCategory) {
      FilterSame(rs, HasCategory(selCategory.value), both);
    } else if Truthy(selTag) {
      FilterSame(rs, HasTag(selTag.value), both);
    } else {
      FilterAll(rs, both);
    }
  }

  /** With only a category selected, the list is as long as that category's
      count; with only a tag selected, as long as that tag's count. */
  lemma FilteredLengthIsCount(rs: seq<BlogRecipe>, c: string, t: string)
    ensures c != [] ==> |Filtered(rs, Some(c), None)| == CategoryCount(rs, c)
    ensures t != [] ==> |Filtered(rs, None, Some(t))| == TagCount(rs, t)
  {
  }

  /** The tag button: clicking the selected tag clears the selection,
      clicking any other tag selects it. */
  function Toggled(selected: Option<string>, tag: string): (r: Option<string>)
    ensures r == None <==> selected == Some(tag)
    ensures r != None ==> r == Some(tag)
  {
    if selected == Some(tag) then None else Some(tag)
  }

  /** Clicking the same tag twice restores a selection that was empty or was
      that tag; from a different tag it leaves no tag selected. */
  lemma ToggleTwice(selected: Option<string>, tag: string)
    ensures selected == None || selected == Some(tag) ==> Toggled(Toggled(selected, tag), tag) == selected
    ensures selected != None && selected != Some(tag) ==> Toggled(Toggled(selected, tag), tag) == None
  {
  }

  /** The page's state: the fetched recipes and the two selections. */
  class BlogPage {
    var recipes: seq<BlogRecipe>
    var selectedCategory: Option<string>
    var selectedTag: Option<string>

    /** The first render: nothing fetched, nothing selected. */
    constructor ()
      ensures recipes == [] && selectedCategory == None && selectedTag == None
    {
      recipes := [];
      selectedCategory := None;
      selectedTag := None;
    }

    /** The list that is shown. */
    function Shown(): (r: seq<BlogRecipe>)
      reads this
      ensures IsSubsequence(r, recipes)
      ensures forall k :: 0 <= k < |r| ==> Matches(r[k], selectedCategory, selectedTag)
      ensures forall k :: 0 <= k < |recipes| && Matches(recipes[k], selectedCategory, selectedTag) ==> recipes[k] in r
      ensures forall x :: multiset(r)[x] == if Matches(x, selectedCategory, selectedTag) then multiset(recipes)[x] else 0
    {
      FilteredIsMatching(recipes, selectedCategory, selectedTag);
      Filtered(recipes, selectedCategory, selectedTag)
    }

    /** The fetch effect: a successful response replaces the list, a failed
        one (`None`) leaves it as it was. */
    method Loaded(data: Option<seq<BlogRecipe>>)
      modifies this`recipes
      ensures data.Some? ==> recipes == data.value
      ensures data.None? ==> recipes == old(recipes)
    {
      if data.Some? {
        recipes := data.value;
      }
    }

    /** A category button, or the "all" button with `None`. */
    method SelectCategory(category: Option<string>)
      modifies this`selectedCategory
      ensures selectedCategory == category
    {
      selectedCategory := category;
    }

    /** A tag button. */
    method ClickTag(tag: string)
      modifies this`selectedTag
      ensures selectedTag == Toggled(old(selectedTag), tag)
    {
      selectedTag := Toggled(selectedTag, tag);
    }

    /** The clear-filters button: both selections cleared, so the whole list
        is shown. */
    method ClearFilters()
      modifies this`selectedCategory, this`selectedTag
      ensures selectedCategory == None && selectedTag == None
      ensures Shown() == recipes
    {
      selectedCategory := None;
      selectedTag := None;
    }
  }
}
