/**
 * The `groupedProducts` reduce: the visible products bucketed by display
 * category into a dictionary whose keys are the dashboard's sections, and
 * what the grouping guarantees (a partition of the visible list).
 */
module Grouping {
  import opened Wrappers
  import opened Seqs
  import opened Products

  /** `groups` and `order` are the grouping of `s`, with keys in first-creation order. */
  ghost predicate GroupedAs(groups: map<string, seq<Product>>, order: seq<string>, s: seq<Product>) {
    && groups.Keys == KeySet(s)
    && (forall k :: k in groups ==> groups[k] == GroupOf(s, k) && groups[k] != [])
    && order == Categories(s)
  }

  /** The accumulator after `p` is pushed onto the section of its display category, created if missing. */
  function Pushed(groups: map<string, seq<Product>>, p: Product): (r: map<string, seq<Product>>)
    ensures r.Keys == groups.Keys + {CategoryKey(p)}
    ensures CategoryKey(p) in groups ==> r[CategoryKey(p)] == groups[CategoryKey(p)] + [p]
    ensures CategoryKey(p) !in groups ==> r[CategoryKey(p)] == [p]
    ensures forall k :: k in groups && k != CategoryKey(p) ==> r[k] == groups[k]
  {
    var cat := CategoryKey(p);
    var created := if cat in groups then groups else groups[cat := []];
    created[cat := created[cat] + [p]]
  }

  /** Pushing `p` turns the sections of `s` into those of `s + [p]`. */
  lemma SectionStep(groups: map<string, seq<Product>>, s: seq<Product>, p: Product)
    requires groups.Keys == KeySet(s)
    requires forall k :: k in groups ==> groups[k] == GroupOf(s, k) && groups[k] != []
    ensures Pushed(groups, p).Keys == KeySet(s + [p])
    ensures forall k :: k in Pushed(groups, p) ==> Pushed(groups, p)[k] == GroupOf(s + [p], k) && Pushed(groups, p)[k] != []
  {
    KeySetSnoc(s, p);
    var next := Pushed(groups, p);
    forall k | k in next ensures next[k] == GroupOf(s + [p], k) && next[k] != [] {
      GroupOfSnoc(s, p, k);
      if k == CategoryKey(p) && k !in groups {
        GroupOfAbsent(s, k);
      }
    }
  }

  /** One step of the reduce keeps the accumulator equal to the grouping of the prefix read so far. */
  lemma GroupStep(groups: map<string, seq<Product>>, order: seq<string>, s: seq<Product>, p: Product)
    requires GroupedAs(groups, order, s)
    ensures GroupedAs(Pushed(groups, p), if CategoryKey(p) in groups then order else order + [CategoryKey(p)], s + [p])
  {
    SectionStep(groups, s, p);
    CategoriesSnoc(s, p);
  }

  /**
   * The reduce, with the accumulator a `map` value that the loop rebinds at
   * each step (the source mutates one object in place),
   * and `order` the sequence in which keys were first created (the order
   * `Object.keys` gives them back for non-numeric names). A key is looked
   * up among the dictionary's own keys only.
   */
  method GroupByCategory(visible: seq<Product>) returns (groups: map<string, seq<Product>>, order: seq<string>)
    ensures groups.Keys == KeySet(visible)
    ensures forall k :: k in groups ==> groups[k] == GroupOf(visible, k) && groups[k] != []
    ensures order == Categories(visible)
  {
    groups, order := map[], [];
    for i := 0 to |visible|
      invariant GroupedAs(groups, order, visible[..i])
    {
      var product := visible[i];
      var cat := CategoryKey(product);
      ghost var before, beforeOrder := groups, order;
      if cat !in groups {
        groups := groups[cat := []];
        order := order + [cat];
      }
      groups := groups[cat := groups[cat] + [product]];
      GroupStep(before, beforeOrder, visible[..i], product);
      PrefixSnoc(visible, i);
    }
    assert visible[..|visible|] == visible;
  }

  /** A product lands in the section of its own display category, as often as it is visible, and in no other. */
  lemma ExactlyOneSection(visible: seq<Product>, p: Product, k: string)
    ensures multiset(GroupOf(visible, k))[p] == if k == CategoryKey(p) then multiset(visible)[p] else 0
  {
    SelectCount(DisplayCategory(k), visible, p);
  }

  /** Each section keeps the relative order of the visible list. */
  lemma SectionKeepsOrder(a: seq<Product>, b: seq<Product>, k: string)
    ensures GroupOf(a + b, k) == GroupOf(a, k) + GroupOf(b, k)
  {
    SelectConcat(DisplayCategory(k), a, b);
  }

  /** The table rows of the dashboard: the sections named by `keys`, one after the other. */
  function Rows(visible: seq<Product>, keys: seq<string>): (r: seq<Product>)
    ensures forall p :: p in r ==> p in visible
  {
    if keys == [] then [] else Rows(visible, keys[..|keys| - 1]) + GroupOf(visible, keys[|keys| - 1])
  }

  /** A product occurs in the rows of distinct sections as often as it is visible if its section is among them, else never. */
  lemma {:induction false} RowsCount(visible: seq<Product>, keys: seq<string>, p: Product)
    requires NoDuplicates(keys)
    ensures multiset(Rows(visible, keys))[p] == if CategoryKey(p) in keys then multiset(visible)[p] else 0
  {
    if keys != [] {
      var init, last := keys[..|keys| - 1], keys[|keys| - 1];
      assert keys == init + [last];
      RowsCount(visible, init, p);
      ExactlyOneSection(visible, p, last);
    }
  }

  /**
   * Rendering the sections in key order shows every visible product exactly
   * as often as it is visible: nothing is dropped and nothing duplicated.
   */
  lemma SectionsPartitionVisible(visible: seq<Product>)
    ensures multiset(Rows(visible, Categories(visible))) == multiset(visible)
    ensures |Rows(visible, Categories(visible))| == |visible|
  {
    var rows := Rows(visible, Categories(visible));
    forall p ensures multiset(rows)[p] == multiset(visible)[p] {
      RowsCount(visible, Categories(visible), p);
      if p in visible {
        assert CategoryKey(p) in KeySet(visible);
      }
    }
    assert multiset(rows) == multiset(visible);
    assert |multiset(rows)| == |multiset(visible)|;
  }

  /** The "No products found" state: the grouping has no keys exactly when nothing is visible. */
  lemma EmptyStateIff(visible: seq<Product>)
    ensures |KeySet(visible)| == 0 <==> visible == []
  {
    if visible != [] {
      assert CategoryKey(visible[0]) in KeySet(visible);
    }
  }

  /**
   * Choosing a category in the filter shows exactly that category's section
   * unless the choice is "General" (or the empty name) and some product has
   * no category: the filter compares the stored category, the sections the
   * display category.
   */
  lemma FilterMatchesSection(ps: seq<Product>, c: string)
    requires c != All
    ensures Visible(ps, c) == GroupOf(ps, c) <==>
      ((c == General || c == "") ==> forall p :: p in ps ==> p.category != "")
  {
    if (c == General || c == "") && exists p :: p in ps && p.category == "" {
      var p :| p in ps && p.category == "";
      if c == General {
        assert p in GroupOf(ps, c) && p !in Visible(ps, c);
      } else {
        assert p in Visible(ps, c) && p !in GroupOf(ps, c);
      }
    } else {
      SelectAgree(StoredCategory(c), DisplayCategory(c), ps);
    }
  }

  /** A product without a category is listed under "General" but is hidden by the "General" filter. */
  lemma UncategorisedOnlyUnderAll(ps: seq<Product>, p: Product)
    requires p in ps && p.category == ""
    ensures General in Categories(ps)
    ensures p in GroupOf(Visible(ps, All), General)
    ensures forall c :: c != All ==> p !in Visible(ps, c) || c == ""
  {
    assert CategoryKey(p) in KeySet(ps);
  }

  /**
   * The members every plain JavaScript object inherits from `Object.prototype`.
   * On the accumulator `{}`, `groups[name]` yields one of them (a function, or
   * the prototype object for `__proto__`): a truthy value that is not an array.
   */
  const PrototypeMembers: set<string> := {
    "constructor", "hasOwnProperty", "isPrototypeOf", "propertyIsEnumerable",
    "toLocaleString", "toString", "valueOf", "__proto__",
    "__defineGetter__", "__defineSetter__", "__lookupGetter__", "__lookupSetter__"
  }

  /**
   * The reduce as written. `!groups[cat]` consults the inherited members as
   * well as the own keys, so for a category named after one of them no array
   * is created and `push` is called on a non-array, which throws a TypeError
   * (`None`): the dashboard fails to render.
   */
  function ReduceAsWritten(visible: seq<Product>): (r: Option<map<string, seq<Product>>>)
    ensures r.Some? ==> forall k :: k in r.value ==> k !in PrototypeMembers
    ensures r.Some? ==> forall p :: p in visible ==> CategoryKey(p) !in PrototypeMembers
  {
    if visible == [] then Some(map[])
    else
      assert visible == visible[..|visible| - 1] + [visible[|visible| - 1]];
      match ReduceAsWritten(visible[..|visible| - 1])
      case None => None
      case Some(groups) =>
        var p := visible[|visible| - 1];
        if CategoryKey(p) !in groups && CategoryKey(p) in PrototypeMembers then None
        else Some(Pushed(groups, p))
  }

  /**
   * The reduce as written throws exactly when some visible product's display
   * category is an inherited member name; otherwise it builds the same
   * sections as `GroupByCategory`.
   */
  lemma {:induction false} ReduceAsWrittenThrowsIff(visible: seq<Product>)
    ensures ReduceAsWritten(visible).None? <==>
      exists p :: p in visible && CategoryKey(p) in PrototypeMembers
    ensures ReduceAsWritten(visible).Some? ==>
      && ReduceAsWritten(visible).value.Keys == KeySet(visible)
      && forall k :: k in ReduceAsWritten(visible).value ==>
           ReduceAsWritten(visible).value[k] == GroupOf(visible, k) && ReduceAsWritten(visible).value[k] != []
  {
    if visible != [] {
      var s, p := visible[..|visible| - 1], visible[|visible| - 1];
      assert visible == s + [p];
      ReduceAsWrittenThrowsIff(s);
      assert forall q :: q in visible <==> q in s || q == p;
      match ReduceAsWritten(s)
      case None =>
      case Some(groups) =>
        if CategoryKey(p) in groups && CategoryKey(p) in PrototypeMembers {
          assert false;
        }
        SectionStep(groups, s, p);
    }
  }

  /**
   * Wherever the reduce as written does not throw, its dictionary is the
   * same map as any grouping with the sections of `GroupOf`, the corrected
   * reduce's included.
   */
  lemma ReduceAsWrittenAgrees(visible: seq<Product>, groups: map<string, seq<Product>>)
    requires groups.Keys == KeySet(visible)
    requires forall k :: k in groups ==> groups[k] == GroupOf(visible, k)
    ensures ReduceAsWritten(visible).Some? ==> groups == ReduceAsWritten(visible).value
  {
    ReduceAsWrittenThrowsIff(visible);
    if ReduceAsWritten(visible).Some? {
      var m := ReduceAsWritten(visible).value;
      assert m.Keys == groups.Keys;
      assert forall k :: k in m ==> m[k] == groups[k];
    }
  }

  /** A product whose category is "constructor" makes the as-written reduce throw, while its section is well defined. */
  lemma ConstructorCategoryThrows()
    ensures var p := Product(Some("p1"), "Mug", 120, 3, "constructor");
      && ReduceAsWritten([p]) == None
      && KeySet([p]) == {"constructor"}
      && GroupOf([p], "constructor") == [p]
  {
    var p := Product(Some("p1"), "Mug", 120, 3, "constructor");
    assert [p][..0] == [];
    KeySetSnoc([], p);
    GroupOfSnoc([], p, "constructor");
  }

  /** A one-product list has one display category, its own. */
  lemma OneProduct(p: Product)
    ensures KeySet([p]) == {CategoryKey(p)}
    ensures Categories([p]) == [CategoryKey(p)]
  {
    assert [p] == [] + [p];
    KeySetSnoc([], p);
    CategoriesSnoc([], p);
  }

  /**
   * Two products, one in a named category (say "Grocery") and one without a
   * category: the select offers that category then "General", and the
   * dashboard shows two sections.
   */
  lemma NamedAndUncategorised(named: Product, plain: Product)
    requires named.category != "" && named.category != General && plain.category == ""
    ensures Categories([named, plain]) == [named.category, General]
    ensures KeySet([named, plain]) == {named.category, General}
  {
    OneProduct(named);
    assert [named, plain] == [named] + [plain];
    KeySetSnoc([named], plain);
    CategoriesSnoc([named], plain);
  }
}
