/**
 * The Drink entity: its recipe, its short and long views, and the database table of
 * drinks with the insert, delete and update the model class offers.
 *
 * The recipe column holds a JSON blob; here it is kept decoded. `None` stands for the blob
 * "null", which is what gets stored when a request body has no "recipe".
 */
module Models {
  import opened Wrappers

  /** One recipe entry: `{color, name, parts}`. */
  datatype Ingredient = Ingredient(color: string, name: string, parts: int)

  type Recipe = seq<Ingredient>

  /** A stored drink. */
  datatype Drink = Drink(id: int, title: Option<string>, recipe: Option<Recipe>)

  /** A recipe entry of the short view: `{color, parts}`. */
  datatype ShortIngredient = ShortIngredient(color: string, parts: int)

  datatype ShortView = ShortView(id: int, title: Option<string>, recipe: seq<ShortIngredient>)

  datatype LongView = LongView(id: int, title: Option<string>, recipe: Option<Recipe>)

  /** The entries of a recipe with only their color and parts, in the same order. */
  function ShortRecipe(recipe: Recipe): (r: seq<ShortIngredient>)
    ensures |r| == |recipe|
    ensures forall i :: 0 <= i < |recipe| ==>
      r[i].color == recipe[i].color && r[i].parts == recipe[i].parts
  {
    if |recipe| == 0 then []
    else [ShortIngredient(recipe[0].color, recipe[0].parts)] + ShortRecipe(recipe[1..])
  }

  /** The short view of a drink; `None` when the recipe is "null", which cannot be
      iterated. */
  function Short(d: Drink): (v: Option<ShortView>)
    ensures v.Some? <==> d.recipe.Some?
    ensures v.Some? ==> v.value.id == d.id && v.value.title == d.title
    ensures v.Some? ==> (
      && |v.value.recipe| == |d.recipe.value|
      && forall i :: 0 <= i < |d.recipe.value| ==>
           v.value.recipe[i] == ShortIngredient(d.recipe.value[i].color, d.recipe.value[i].parts))
  {
    match d.recipe
    case None => None
    case Some(recipe) => Some(ShortView(d.id, d.title, ShortRecipe(recipe)))
  }

  /** The long view of a drink: every column, the recipe as stored. */
  function Long(d: Drink): (v: LongView)
    ensures v.id == d.id && v.title == d.title && v.recipe == d.recipe
  {
    LongView(d.id, d.title, d.recipe)
  }

  /** Both views report the drink's id and title; the long view carries the stored recipe
      unchanged and the short view is its color/parts projection. */
  lemma ShortProjectsLong(d: Drink)
    ensures Long(d).id == d.id && Long(d).title == d.title && Long(d).recipe == d.recipe
    ensures Short(d).Some? ==>
      && Short(d).value.id == Long(d).id
      && Short(d).value.title == Long(d).title
      && Short(d).value.recipe == ShortRecipe(Long(d).recipe.value)
  {
  }

  // ----------------------------------------------------------------------------------------
  // The table

  /** The database's refusal to commit a row that breaks the UNIQUE constraint on title. */
  datatype DbError = IntegrityError

  predicate Ascending(ids: seq<int>) {
    forall i, j :: 0 <= i < j < |ids| ==> ids[i] < ids[j]
  }

  /** Whether some row already has this title (SQL's UNIQUE lets any number of NULLs in). */
  predicate TitleTaken(rows: map<int, Drink>, title: Option<string>) {
    title.Some? && exists k :: k in rows && rows[k].title == title
  }

  predicate UniqueTitles(rows: map<int, Drink>) {
    forall a, b :: a in rows && b in rows && a != b && rows[a].title.Some? ==> rows[a].title != rows[b].title
  }

  /** The id the database gives a row inserted without one: one more than the largest id
      in the table, 1 for an empty table. */
  function NextId(ids: seq<int>): (id: int)
    requires Ascending(ids)
    ensures forall i :: 0 <= i < |ids| ==> ids[i] < id
  {
    if |ids| == 0 then 1 else ids[|ids| - 1] + 1
  }

  /** The ids with `id` taken out, order kept. */
  function Without(ids: seq<int>, id: int): (r: seq<int>)
    ensures forall x :: x in r <==> x in ids && x != id
    ensures Ascending(ids) ==> Ascending(r)
    decreases |ids|
  {
    if |ids| == 0 then []
    else
      var rest := Without(ids[1..], id);
      assert forall x :: x in ids[1..] ==> x in ids;
      assert Ascending(ids) ==> Ascending(ids[1..]);
      if ids[0] == id then rest
      else
        var r := [ids[0]] + rest;
        assert Ascending(ids) ==> Ascending(r) by {
          if Ascending(ids) {
            forall j | 1 <= j < |r|
              ensures ids[0] < r[j]
            {
              assert r[j] == rest[j - 1] && rest[j - 1] in rest;
              var k :| 0 <= k < |ids[1..]| && ids[1..][k] == r[j];
              assert ids[k + 1] == r[j];
            }
          }
        }
        r
  }

  /** The rows in the order of `ids`. */
  function InOrder(rows: map<int, Drink>, ids: seq<int>): seq<Drink>
    requires forall i :: 0 <= i < |ids| ==> ids[i] in rows
  {
    seq(|ids|, i requires 0 <= i < |ids| => rows[ids[i]])
  }

  /** Adding a row under a new id at the end of the order appends it to the listing. */
  lemma InOrderAppend(rows: map<int, Drink>, ids: seq<int>, id: int, d: Drink)
    requires forall i :: 0 <= i < |ids| ==> ids[i] in rows
    requires id !in ids
    ensures InOrder(rows[id := d], ids + [id]) == InOrder(rows, ids) + [d]
  {
    var after := InOrder(rows[id := d], ids + [id]);
    forall i | 0 <= i < |ids|
      ensures after[i] == InOrder(rows, ids)[i]
    {
      assert (ids + [id])[i] == ids[i] != id;
    }
  }

  /** The drink table: the rows by id, and the ids in ascending order, which is the order a
      full-table query returns the rows in. */
  class DrinkTable {
    var rows: map<int, Drink>
    var ids: seq<int>

    ghost predicate Valid()
      reads this
    {
      && Ascending(ids)
      && (forall i :: 0 <= i < |ids| ==> ids[i] in rows)
      && (forall k :: k in rows ==> k in ids)
      && (forall k :: k in rows ==> rows[k].id == k)
      && UniqueTitles(rows)
    }

    /** A freshly created, empty table. */
    constructor ()
      ensures Valid() && rows == map[] && ids == []
    {
      rows := map[];
      ids := [];
    }

    /** Every drink, in id order, each once. */
    function All(): (r: seq<Drink>)
      reads this
      requires Valid()
      ensures |r| == |ids| && forall i :: 0 <= i < |ids| ==> r[i] == rows[ids[i]]
      ensures forall k :: k in rows ==> rows[k] in r
      ensures forall i, j :: 0 <= i < j < |r| ==> r[i].id < r[j].id
    {
      InOrder(rows, ids)
    }

    /** The drink with this id, if any. */
    function Get(id: int): (d: Option<Drink>)
      reads this
      requires Valid()
      ensures d.Some? <==> id in rows
      ensures d.Some? ==> d.value.id == id && d.value == rows[id]
    {
      if id in rows then Some(rows[id]) else None
    }

    /** Adds a drink without an id: it gets a fresh id and goes to the end of the listing;
        a title already in use is refused and nothing changes. */
    method Insert(title: Option<string>, recipe: Option<Recipe>) returns (r: Result<Drink, DbError>)
      requires Valid()
      modifies this
      ensures Valid()
      ensures TitleTaken(old(rows), title) ==>
        r == Err(IntegrityError) && rows == old(rows) && ids == old(ids)
      ensures !TitleTaken(old(rows), title) ==>
        && r.Ok?
        && r.value == Drink(NextId(old(ids)), title, recipe)
        && r.value.id !in old(rows)
        && rows == old(rows)[r.value.id := r.value]
        && All() == old(All()) + [r.value]
    {
      if TitleTaken(rows, title) {
        return Err(IntegrityError);
      }
      var d := Drink(NextId(ids), title, recipe);
      InOrderAppend(rows, ids, d.id, d);
      rows := rows[d.id := d];
      ids := ids + [d.id];
      r := Ok(d);
    }

    /** Removes an existing drink; every other row stays as it was. */
    method Delete(id: int)
      requires Valid() && id in rows
      modifies this
      ensures Valid()
      ensures rows == old(rows) - {id}
      ensures ids == Without(old(ids), id)
    {
      rows := rows - {id};
      ghost var before := ids;
      ids := Without(ids, id);
      forall i | 0 <= i < |ids|
        ensures ids[i] in rows
      {
        assert ids[i] in Without(before, id);
      }
    }

    /** Commits a changed existing drink; a title used by another row is refused and nothing
        changes. */
    method Update(d: Drink) returns (r: Outcome<DbError>)
      requires Valid() && d.id in rows
      modifies this
      ensures Valid()
      ensures TitleTaken(old(rows) - {d.id}, d.title) ==>
        r == Fail(IntegrityError) && rows == old(rows) && ids == old(ids)
      ensures !TitleTaken(old(rows) - {d.id}, d.title) ==>
        r == Pass && rows == old(rows)[d.id := d] && ids == old(ids)
    {
      if TitleTaken(rows - {d.id}, d.title) {
        return Fail(IntegrityError);
      }
      ghost var before := rows;
      rows := rows[d.id := d];
      forall a, b | a in rows && b in rows && a != b && rows[a].title.Some?
        ensures rows[a].title != rows[b].title
      {
        if a == d.id {
          assert b in before - {d.id};
        } else if b == d.id {
          assert a in before - {d.id};
        } else {
          assert before[a] == rows[a] && before[b] == rows[b];
        }
      }
      r := Pass;
    }
  }
}
