/**
 * The category store: one module-level list of categories that `create`, `update`
 * and `delete` change in place; `getAll` hands out a copy sorted by `order`, and
 * `getById` a copy of one category.
 */
module CategoryService {
  import opened Wrappers
  import opened Lists
  import opened Records
  import opened Sorting
  import RecordIds

  /** The comparator `(a, b) => a.order - b.order` as a sort key. */
  function OrderRank(c: Category): Rank {
    Rank(0, c.order)
  }

  /** `categories.find(cat => cat.Id === id)`. */
  function FindCategory(s: seq<Category>, id: int): (r: Option<Category>)
    ensures r.None? <==> id !in CategoryIds(s)
    ensures r.Some? ==> r.value in s && r.value.id == id
  {
    var k := FindIndex(s, CategoryHasId(id));
    if k == -1 then None else Some(s[k])
  }

  /** The record `create` builds: the draft's fields, the new Id and the next `order`. */
  function NewCategory(d: CategoryDraft, id: int, order: int): Category {
    Category(id, d.name, d.color, d.icon, order)
  }

  /** What `update` leaves: the new list, and the record it returns (`null` is `None`). */
  datatype CategoryUpdated = CategoryUpdated(store: seq<Category>, category: Option<Category>)

  /** `update(id, updateData)`: the category with that Id merged; unknown Ids change nothing. */
  function UpdateCategoryById(s: seq<Category>, id: int, p: CategoryPatch): (r: CategoryUpdated)
    ensures r.category.None? <==> id !in CategoryIds(s)
    ensures r.category.None? ==> r.store == s
    ensures r.category.Some? ==> r.category == Some(ApplyCategoryPatch(FindCategory(s, id).value, p))
    ensures CategoryIds(r.store) == CategoryIds(s)
  {
    var k := FindIndex(s, CategoryHasId(id));
    if k == -1 then CategoryUpdated(s, None)
    else
      var u := ApplyCategoryPatch(s[k], p);
      CategoryUpdated(s[k := u], Some(u))
  }

  /** `delete(id)`: the list without the category of that Id; unchanged for an unknown Id. */
  function DeleteCategoryById(s: seq<Category>, id: int): (r: seq<Category>)
    ensures id !in CategoryIds(s) ==> r == s
    ensures id in CategoryIds(s) ==> |r| == |s| - 1
  {
    var k := FindIndex(s, CategoryHasId(id));
    if k == -1 then s else s[..k] + s[k + 1..]
  }

  /** `cat => cat.Id !== id`. */
  function CategoryOtherId(id: int): Category -> bool {
    (c: Category) => c.id != id
  }

  /**
   * With unique Ids, `update` merges into the one category of that Id and keeps every
   * other category where it was.
   */
  lemma UpdateCategoryPointwise(s: seq<Category>, id: int, p: CategoryPatch)
    requires UniqueCategoryIds(s)
    ensures var r := UpdateCategoryById(s, id, p).store;
      |r| == |s| && forall i :: 0 <= i < |s| ==> r[i] == if s[i].id == id then ApplyCategoryPatch(s[i], p) else s[i]
  {
  }

  /** With unique Ids, `delete` removes exactly the category of that Id, keeping the order of the rest. */
  lemma DeleteCategoryFilters(s: seq<Category>, id: int)
    requires UniqueCategoryIds(s)
    ensures DeleteCategoryById(s, id) == Filter(s, CategoryOtherId(id))
  {
    var k := FindIndex(s, CategoryHasId(id));
    if k == -1 {
      FilterAll(s, CategoryOtherId(id));
    } else {
      assert s[k].id == id;
      FilterDropsOne(s, k, CategoryOtherId(id));
    }
  }

  /**
   * Under the corrected Id rule `RecordIds.NextId`, a new category gets an Id that no
   * stored category has, so the Ids stay unique, and the `order` after the last
   * position. (As written, an emptied store hands out -Infinity to every new category.)
   */
  lemma CreateKeepsUniqueIds(s: seq<Category>, d: CategoryDraft)
    requires UniqueCategoryIds(s)
    ensures var c := NewCategory(d, RecordIds.NextId(CategoryIds(s)), |s| + 1);
      c.id !in CategoryIds(s) && UniqueCategoryIds(s + [c]) && c.order > |s|
  {
    var ids := CategoryIds(s);
    var c := NewCategory(d, RecordIds.NextId(ids), |s| + 1);
    forall i | 0 <= i < |s|
      ensures s[i].id < c.id
    {
      assert ids[i] == s[i].id;
    }
    AppendKeepsUniqueIds(s, c);
  }

  /** Appending a category whose Id exceeds every stored Id keeps the Ids unique. */
  lemma AppendKeepsUniqueIds(s: seq<Category>, c: Category)
    requires UniqueCategoryIds(s)
    requires forall i :: 0 <= i < |s| ==> s[i].id < c.id
    ensures UniqueCategoryIds(s + [c])
  {
    var t := s + [c];
    forall i, j | 0 <= i < j < |t|
      ensures t[i].id != t[j].id
    {
      assert t[i] == s[i];
      if j < |s| {
        assert t[j] == s[j];
      }
    }
  }

  /** Dropping one category keeps the Ids unique. */
  lemma DropKeepsUniqueIds(s: seq<Category>, k: nat)
    requires UniqueCategoryIds(s) && k < |s|
    ensures UniqueCategoryIds(s[..k] + s[k + 1..])
  {
    var r := s[..k] + s[k + 1..];
    forall i, j | 0 <= i < j < |r|
      ensures r[i].id != r[j].id
    {
      assert r[i] == s[if i < k then i else i + 1];
      assert r[j] == s[if j < k then j else j + 1];
    }
  }

  /**
   * The list `getAll` returns is ordered by `order`, holds exactly the stored
   * categories, and keeps the storage order among categories of equal `order`.
   */
  lemma GetAllOrdered(s: seq<Category>, order: int)
    ensures var r := SortBy(s, OrderRank);
      && (forall i, j :: 0 <= i < j < |r| ==> r[i].order <= r[j].order)
      && multiset(r) == multiset(s)
      && Filter(r, HasRank(OrderRank, Rank(0, order))) == Filter(s, HasRank(OrderRank, Rank(0, order)))
  {
    SortBySorted(s, OrderRank);
    SortByPermutation(s, OrderRank);
    SortByStable(s, OrderRank, Rank(0, order));
  }

  /** The store: the module-level `categories` array. */
  class CategoryStore {
    var categories: seq<Category>

    /** No two stored categories share an Id. */
    ghost predicate Valid()
      reads this
    {
      UniqueCategoryIds(categories)
    }

    /** The store as loaded from the mock data, whose Ids are unique. */
    constructor(initial: seq<Category>)
      requires UniqueCategoryIds(initial)
      ensures Valid() && categories == initial
    {
      categories := initial;
    }

    /**
     * `getAll()`: a copy of the list sorted by `order`, stably; the stored order does
     * not change.
     */
    method GetAll() returns (r: seq<Category>)
      ensures r == SortBy(categories, OrderRank)
    {
      r := SortedCopy(categories, OrderRank);
    }

    /** `getById(id)`: a copy of the category with that Id, `null` when there is none. */
    method GetById(id: int) returns (r: Option<Category>)
      ensures r == FindCategory(categories, id)
    {
      var k := FindIndex(categories, CategoryHasId(id));
      if k == -1 {
        r := None;
      } else {
        r := Some(categories[k]);
      }
    }

    /**
     * `create(categoryData)` with the corrected Id rule `RecordIds.NextId`: appends one
     * category with a fresh Id and the next `order`.
     */
    method Create(d: CategoryDraft) returns (c: Category)
      requires Valid()
      modifies this
      ensures Valid()
      ensures c == NewCategory(d, RecordIds.NextId(CategoryIds(old(categories))), |old(categories)| + 1)
      ensures categories == old(categories) + [c]
    {
      CreateKeepsUniqueIds(categories, d);
      c := NewCategory(d, RecordIds.NextId(CategoryIds(categories)), |categories| + 1);
      categories := categories + [c];
    }

    /** `update(id, updateData)`. */
    method Update(id: int, p: CategoryPatch) returns (r: Option<Category>)
      requires Valid()
      modifies this
      ensures Valid()
      ensures CategoryUpdated(categories, r) == UpdateCategoryById(old(categories), id, p)
    {
      var k := FindIndex(categories, CategoryHasId(id));
      if k == -1 {
        r := None;
        return;
      }
      var u := ApplyCategoryPatch(categories[k], p);
      categories := categories[k := u];
      r := Some(u);
    }

    /** `delete(id)`: `true` when a category was removed. */
    method Delete(id: int) returns (removed: bool)
      requires Valid()
      modifies this
      ensures Valid()
      ensures removed <==> id in CategoryIds(old(categories))
      ensures categories == DeleteCategoryById(old(categories), id)
    {
      var k := FindIndex(categories, CategoryHasId(id));
      if k == -1 {
        return false;
      }
      DropKeepsUniqueIds(categories, k);
      categories := categories[..k] + categories[k + 1..];
      removed := true;
    }
  }
}
