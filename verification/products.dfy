/**
 * The product records the inventory client holds, and the pure projections
 * the dashboard computes from them on every render: the visible list under
 * the category filter, the per-category sections, the category list that
 * feeds the filter control, and the low-stock badge.
 */
module Products {
  import opened Wrappers
  import opened Seqs

  /**
   * A product as the list endpoint returns it. `id` is the store's `_id`
   * (absent on a malformed record); an empty `category` stands for a
   * missing or empty one, the falsy values of JavaScript.
   */
  datatype Product = Product(id: Option<string>, name: string, price: int, quantity: int, category: string)

  /** The filter value that shows every product. */
  const All := "All"
  /** The section label a product without a category is shown under. */
  const General := "General"
  /** A product with fewer units than this gets the red badge. */
  const LowStockLimit := 5

  /** The display category `p.category || 'General'`. */
  function CategoryKey(p: Product): (k: string)
    ensures k != ""
    ensures p.category != "" ==> k == p.category
    ensures p.category == "" ==> k == General
  {
    if p.category == "" then General else p.category
  }

  /** The red badge of the list view: fewer than `LowStockLimit` units in stock. */
  predicate LowStock(p: Product)
    ensures LowStock(p) <==> p.quantity <= 4
  {
    p.quantity < LowStockLimit
  }

  /** The badge is a cutoff: 4 units are low, 5 are not, and fewer units are never less low. */
  lemma LowStockIsThreshold(p: Product, q: Product)
    ensures p.quantity <= q.quantity && LowStock(q) ==> LowStock(p)
    ensures p.quantity == 4 ==> LowStock(p)
    ensures p.quantity == 5 ==> !LowStock(p)
  {
  }

  /**
   * The two ways the client compares a product with a category name: the
   * filter compares the stored category, the grouping the display category.
   */
  datatype Criterion = StoredCategory(name: string) | DisplayCategory(name: string)

  predicate Matches(crit: Criterion, p: Product) {
    match crit
    case StoredCategory(c) => p.category == c
    case DisplayCategory(k) => CategoryKey(p) == k
  }

  /** The products that meet `crit`, in their original order (`Array.prototype.filter`). */
  function Select(crit: Criterion, ps: seq<Product>): (r: seq<Product>)
    ensures |r| <= |ps|
    ensures forall p :: p in r <==> p in ps && Matches(crit, p)
  {
    if ps == [] then []
    else
      var init, last := ps[..|ps| - 1], ps[|ps| - 1];
      assert ps == init + [last];
      if Matches(crit, last) then Select(crit, init) + [last] else Select(crit, init)
  }

  /** Each product occurs in the selection as often as in the input when it matches, else never. */
  lemma {:induction false} SelectCount(crit: Criterion, ps: seq<Product>, p: Product)
    ensures multiset(Select(crit, ps))[p] == if Matches(crit, p) then multiset(ps)[p] else 0
  {
    if ps != [] {
      var init, last := ps[..|ps| - 1], ps[|ps| - 1];
      assert ps == init + [last];
      SelectCount(crit, init, p);
    }
  }

  /** Selection distributes over concatenation: it keeps the relative order of the input. */
  lemma {:induction false} SelectConcat(crit: Criterion, a: seq<Product>, b: seq<Product>)
    ensures Select(crit, a + b) == Select(crit, a) + Select(crit, b)
  {
    if b == [] {
      assert a + b == a;
    } else {
      var init, last := b[..|b| - 1], b[|b| - 1];
      assert (a + b)[..|a + b| - 1] == a + init;
      SelectConcat(crit, a, init);
    }
  }

  /** Two criteria that agree on every product of the list select the same products. */
  lemma {:induction false} SelectAgree(c1: Criterion, c2: Criterion, ps: seq<Product>)
    requires forall p :: p in ps ==> (Matches(c1, p) <==> Matches(c2, p))
    ensures Select(c1, ps) == Select(c2, ps)
  {
    if ps != [] {
      var init := ps[..|ps| - 1];
      assert forall p :: p in init ==> p in ps;
      SelectAgree(c1, c2, init);
    }
  }

  /** `getVisibleProducts`: everything under "All", else the products whose stored category is the filter. */
  function Visible(ps: seq<Product>, filter: string): (r: seq<Product>)
    ensures filter == All ==> r == ps
    ensures filter != All ==> forall p :: p in r <==> p in ps && p.category == filter
  {
    if filter == All then ps else Select(StoredCategory(filter), ps)
  }

  /** Under a category filter the visible list keeps the order, and the multiplicity, of the products. */
  lemma VisibleKeepsOrder(a: seq<Product>, b: seq<Product>, filter: string, p: Product)
    ensures Visible(a + b, filter) == Visible(a, filter) + Visible(b, filter)
    ensures multiset(Visible(a, filter))[p] ==
      if filter == All || p.category == filter then multiset(a)[p] else 0
  {
    if filter != All {
      SelectConcat(StoredCategory(filter), a, b);
      SelectCount(StoredCategory(filter), a, p);
    }
  }

  /** The section for display category `k`: `groupedProducts[k]`, or empty when there is none. */
  function GroupOf(ps: seq<Product>, k: string): (r: seq<Product>)
    ensures forall p :: p in r <==> p in ps && CategoryKey(p) == k
  {
    Select(DisplayCategory(k), ps)
  }

  /** The display categories of a list, as a set. */
  function KeySet(ps: seq<Product>): set<string> {
    set p | p in ps :: CategoryKey(p)
  }

  /** `products.map(p => p.category || 'General')`. */
  function CategoryKeys(ps: seq<Product>): (r: seq<string>)
    ensures |r| == |ps|
    ensures forall i :: 0 <= i < |ps| ==> r[i] == CategoryKey(ps[i])
  {
    if ps == [] then [] else CategoryKeys(ps[..|ps| - 1]) + [CategoryKey(ps[|ps| - 1])]
  }

  /** `categories`: the display categories of all products, each once. */
  function Categories(ps: seq<Product>): (r: seq<string>)
    ensures NoDuplicates(r)
    ensures forall k :: k in r <==> k in KeySet(ps)
  {
    var keys := CategoryKeys(ps);
    assert forall k :: k in keys <==> k in KeySet(ps) by {
      forall k | k in KeySet(ps) ensures k in keys {
        var p :| p in ps && CategoryKey(p) == k;
        var i :| 0 <= i < |ps| && ps[i] == p;
        assert keys[i] == k;
      }
    }
    Distinct(keys)
  }

  /** The category list is in the order in which each category first appears among the products. */
  lemma CategoriesFirstOccurrence(ps: seq<Product>)
    ensures forall i, j :: 0 <= i < j < |Categories(ps)| ==>
      FirstIndex(CategoryKeys(ps), Categories(ps)[i]) < FirstIndex(CategoryKeys(ps), Categories(ps)[j])
  {
    DistinctFirstOccurrence(CategoryKeys(ps));
  }

  /** Appending a product adds its display category at the end of the list, unless already there. */
  lemma CategoriesSnoc(ps: seq<Product>, p: Product)
    ensures Categories(ps + [p]) ==
      if CategoryKey(p) in KeySet(ps) then Categories(ps) else Categories(ps) + [CategoryKey(p)]
  {
    assert (ps + [p])[..|ps|] == ps;
    assert CategoryKeys(ps + [p])[..|ps|] == CategoryKeys(ps);
  }

  /** Appending a product extends the section of its display category only. */
  lemma GroupOfSnoc(ps: seq<Product>, p: Product, k: string)
    ensures GroupOf(ps + [p], k) == if CategoryKey(p) == k then GroupOf(ps, k) + [p] else GroupOf(ps, k)
  {
    assert (ps + [p])[..|ps|] == ps;
  }

  /** A display category no product has names an empty section. */
  lemma GroupOfAbsent(ps: seq<Product>, k: string)
    requires k !in KeySet(ps)
    ensures GroupOf(ps, k) == []
  {
    HeadIsMember(GroupOf(ps, k));
  }

  /** Appending a product adds its display category to the set of display categories. */
  lemma KeySetSnoc(ps: seq<Product>, p: Product)
    ensures KeySet(ps + [p]) == KeySet(ps) + {CategoryKey(p)}
  {
    forall k | k in KeySet(ps + [p]) ensures k in KeySet(ps) + {CategoryKey(p)} {
      var q :| q in ps + [p] && CategoryKey(q) == k;
      if q != p {
        assert q in ps;
      }
    }
    forall k | k in KeySet(ps) ensures k in KeySet(ps + [p]) {
      var q :| q in ps && CategoryKey(q) == k;
      assert q in ps + [p];
    }
    assert p in ps + [p];
  }
}
