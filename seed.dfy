/** The category seeding script: a fixed list of categories upserted one at
    a time into the category table, with an empty update, so that a category
    already present is left alone and a missing one is inserted. */
module SeedCategories {

  /** One entry of the seed list. */
  datatype CategorySeed = CategorySeed(name: string, order: int)

  /** `INITIAL_CATEGORIES`. */
  const InitialCategories: seq<CategorySeed> := [
    CategorySeed("국/찌개", 1),
    CategorySeed("볶음", 2),
    CategorySeed("무침", 3),
    CategorySeed("조림", 4),
    CategorySeed("구이", 5),
    CategorySeed("튀김", 6),
    CategorySeed("찜", 7),
    CategorySeed("전/부침", 8),
    CategorySeed("밥/죽/면", 9),
    CategorySeed("디저트", 10),
    CategorySeed("기타", 11)
  ]

  /** No two entries share a name. */
  predicate DistinctNames(list: seq<CategorySeed>) {
    forall i, j :: 0 <= i < j < |list| ==> list[i].name != list[j].name
  }

  /** The names a list mentions. */
  function Names(list: seq<CategorySeed>): (s: set<string>)
    ensures forall n :: n in s <==> exists k :: 0 <= k < |list| && list[k].name == n
  {
    set k | 0 <= k < |list| :: list[k].name
  }

  /** The seed list has eleven entries numbered 1 to 11 in list order. */
  lemma InitialCategoriesNumbered()
    ensures |InitialCategories| == 11
    ensures forall i :: 0 <= i < |InitialCategories| ==> InitialCategories[i].order == i + 1
  {
  }

  /** The position in the seed list of the entry whose name starts with `c`. */
  function InitialIndex(c: char): (i: int)
  {
    if c == '국' then 0 else if c == '볶' then 1 else if c == '무' then 2
    else if c == '조' then 3 else if c == '구' then 4 else if c == '튀' then 5
    else if c == '찜' then 6 else if c == '전' then 7 else if c == '밥' then 8
    else if c == '디' then 9 else if c == '기' then 10 else -1
  }

  /** No two entries of the seed list share a name: their first characters
      already differ. */
  lemma InitialCategoriesDistinct()
    ensures DistinctNames(InitialCategories)
  {
    assert forall i :: 0 <= i < 11 ==> InitialIndex(InitialCategories[i].name[0]) == i;
  }

  /** `category.upsert({ where: { name }, update: {}, create: category })` on
      a table mapping each category name to its order. */
  function Upserted(table: map<string, int>, c: CategorySeed): (r: map<string, int>)
    ensures r.Keys == table.Keys + {c.name}
    ensures forall n :: n in table ==> r[n] == table[n]
    ensures c.name !in table ==> r[c.name] == c.order
  {
    if c.name in table then table else table[c.name := c.order]
  }

  /** The table after upserting every entry of `list`, first to last. */
  function Seeded(table: map<string, int>, list: seq<CategorySeed>): map<string, int>
  {
    if list == [] then table
    else Upserted(Seeded(table, list[..|list| - 1]), list[|list| - 1])
  }

  /** The names of a list with one more entry. */
  lemma NamesSnoc(list: seq<CategorySeed>)
    requires list != []
    ensures Names(list) == Names(list[..|list| - 1]) + {list[|list| - 1].name}
  {
    var n := |list| - 1;
    assert forall k :: 0 <= k < n ==> list[..n][k] == list[k];
  }

  /** After seeding, the table holds exactly its old names and the listed
      ones, and every name it held keeps its order: a category present
      before is not updated, and a category not in the list is untouched. */
  lemma {:induction false} SeededKeepsAndAdds(table: map<string, int>, list: seq<CategorySeed>)
    ensures Seeded(table, list).Keys == table.Keys + Names(list)
    ensures forall n :: n in table ==> Seeded(table, list)[n] == table[n]
  {
    if list != [] {
      SeededKeepsAndAdds(table, list[..|list| - 1]);
      NamesSnoc(list);
    }
  }

  /** A listed category that was missing is inserted with the order of its
      first entry in the list. */
  lemma {:induction false} SeededInsertsMissing(table: map<string, int>, list: seq<CategorySeed>, i: nat)
    requires i < |list| && list[i].name !in table
    requires forall j :: 0 <= j < i ==> list[j].name != list[i].name
    ensures list[i].name in Seeded(table, list)
    ensures Seeded(table, list)[list[i].name] == list[i].order
  {
    var n := |list| - 1;
    var prefix := list[..n];
    if i < n {
      assert prefix[i] == list[i];
      assert forall j :: 0 <= j < i ==> prefix[j] == list[j];
      SeededInsertsMissing(table, prefix, i);
    } else {
      SeededKeepsAndAdds(table, prefix);
      assert forall k :: 0 <= k < n ==> prefix[k] == list[k];
    }
  }

  /** Seeding a table that already holds every listed name changes nothing. */
  lemma {:induction false} SeededWhenAllPresent(table: map<string, int>, list: seq<CategorySeed>)
    requires Names(list) <= table.Keys
    ensures Seeded(table, list) == table
  {
    if list != [] {
      NamesSnoc(list);
      SeededWhenAllPresent(table, list[..|list| - 1]);
    }
  }

  /** Running the seed a second time leaves the table as the first run left it. */
  lemma SeededIdempotent(table: map<string, int>, list: seq<CategorySeed>)
    ensures Seeded(Seeded(table, list), list) == Seeded(table, list)
  {
    SeededKeepsAndAdds(table, list);
    SeededWhenAllPresent(Seeded(table, list), list);
  }

  /** Seeding inserts every category of the seed list that was missing
      with its position in the list plus one as its order. */
  lemma InitialCategoriesInserted(table: map<string, int>)
    ensures forall i :: 0 <= i < |InitialCategories| && InitialCategories[i].name !in table ==>
      InitialCategories[i].name in Seeded(table, InitialCategories) &&
      Seeded(table, InitialCategories)[InitialCategories[i].name] == i + 1
  {
    InitialCategoriesNumbered();
    InitialCategoriesDistinct();
    forall i | 0 <= i < |InitialCategories| && InitialCategories[i].name !in table
      ensures InitialCategories[i].name in Seeded(table, InitialCategories)
      ensures Seeded(table, InitialCategories)[InitialCategories[i].name] == i + 1
    {
      SeededInsertsMissing(table, InitialCategories, i);
    }
  }

  /** The category table, by name. */
  class CategoryTable {
    var rows: map<string, int>

    constructor (rows: map<string, int>)
      ensures this.rows == rows
    {
      this.rows := rows;
    }

    /** One upsert with an empty update. */
    method Upsert(c: CategorySeed)
      modifies this
      ensures rows == Upserted(old(rows), c)
    {
      if c.name !in rows {
        rows := rows[c.name := c.order];
      }
    }
  }

  /** The loop of `main`: upserts every entry of `list`, first to last. */
  method UpsertAll(table: CategoryTable, list: seq<CategorySeed>)
    modifies table
    ensures table.rows == Seeded(old(table.rows), list)
  {
    for i := 0 to |list|
      invariant table.rows == Seeded(old(table.rows), list[..i])
    {
      assert list[..i + 1][..i] == list[..i];
      table.Upsert(list[i]);
    }
    assert list[..|list|] == list;
  }

  /** `main`: upserts the seed list in order. Afterwards every listed name is
      in the table, names already present kept their order, and missing ones
      have their listed order. */
  method Seed(table: CategoryTable)
    modifies table
    ensures table.rows == Seeded(old(table.rows), InitialCategories)
    ensures table.rows.Keys == old(table.rows).Keys + Names(InitialCategories)
    ensures forall n :: n in old(table.rows) ==> table.rows[n] == old(table.rows)[n]
    ensures forall i :: 0 <= i < |InitialCategories| && InitialCategories[i].name !in old(table.rows) ==>
      table.rows[InitialCategories[i].name] == i + 1
  {
    UpsertAll(table, InitialCategories);
    SeededKeepsAndAdds(old(table.rows), InitialCategories);
    InitialCategoriesInserted(old(table.rows));
  }
}
