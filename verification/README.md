# Shop inventory client: view-state model

A Dafny model of the browser client of a small shop inventory manager. The
client (`client/src/App.jsx`, a single React component) holds the product list
fetched from the inventory API, a display mode (`list`, `add` or `edit`), a
category filter and the add/edit form. On every render it derives, from the
product list and the filter:

- the visible products;
- the visible products grouped into sections by display category, where a
  missing or empty category shows as `General`;
- the list of categories that feeds the filter control;
- the red low-stock badge, shown for fewer than 5 units.

Its handlers move between the three modes, fill and edit the form, step the
quantity up and down (never below zero) and pick the request a save sends.

The model is split by concern:

- `wrappers.dfy`: `Option`.
- `seqs.dfy`: removal of duplicates in first-occurrence order, which is what
  `[...new Set(xs)]` computes.
- `products.dfy`: the `Product` record and the pure projections: the filter,
  the sections, the category list and the badge.
- `grouping.dfy`: the `groupedProducts` reduce, written as a loop that
  rebuilds a `map` value at each step, mirroring the in-place mutation of the
  accumulator object in the source. It also holds the partition lemmas and
  the reduce exactly as written (see Findings).
- `form.dfy`: the form, the inputs, the quantity stepper and the save request.
- `app.dfy`: the component as a class `InventoryApp`. Its fields are
  `products`, `view`, `filterCategory` and `formData`. Each handler is a
  method that states the whole new state.

The class keeps the invariant `view == Edit ==> formData.id != ""`. The guard
of `startEdit` maintains it, and it is why a save in edit mode always sends
its update to a real product id.

The filter and the sections do not agree on uncategorised products. The
filter compares the stored category. The sections and the category list use
`category || 'General'`. So choosing "General" in the filter hides the
products the "General" section holds because their category is empty; it
still shows products whose stored category is literally "General". The model
keeps this behaviour
(`FilterMatchesSection`, `UncategorisedOnlyUnderAll`).

`startEdit` refuses a product whose `_id` is missing and also one whose
`_id` is the empty string, because both are falsy.

## Model

| member | source | states |
|---|---|---|
| `Products.CategoryKey` | client/src/App.jsx:116 | the display category is never empty; a non-empty stored category is its own display category; an empty one displays as "General" |
| `Products.Visible` | client/src/App.jsx:110-113 | under "All" the visible list is exactly the product list; under any other filter a product is visible iff it is in the list and its stored category equals the filter |
| `Products.VisibleKeepsOrder` | client/src/App.jsx:110-113 | the visible list distributes over concatenation (relative order is kept) and shows each product as often as it occurs, or not at all when its category does not match |
| `Products.GroupOf` | client/src/App.jsx:115-120 | a product is in the section for `k` iff it is in the list and its display category is `k` |
| `Products.CategoryKeys` | client/src/App.jsx:122 | one display category per product, position by position |
| `Products.Categories` | client/src/App.jsx:122 | the category list has no duplicates, and a name is in it iff some product (of the whole list, whatever the filter) has it as display category |
| `Products.CategoriesFirstOccurrence` | client/src/App.jsx:122 | the category list is ordered by where each category first occurs among the products |
| `Products.CategoriesSnoc` | client/src/App.jsx:122 | appending a product appends its display category to the list unless the list already has it |
| `Products.GroupOfSnoc` | client/src/App.jsx:117-118 | appending a product extends only the section of its own display category, by that product at the end |
| `Products.LowStock` | client/src/App.jsx:252 | the red badge shows exactly when the quantity is at most 4 |
| `Products.LowStockIsThreshold` | client/src/App.jsx:252 | the badge is a cutoff at 5: 4 units are low, 5 are not, and fewer units than a low product are also low |
| `Seqs.Distinct` | client/src/App.jsx:122 | the result of `[...new Set(s)]` has no duplicates and holds exactly the elements of `s` |
| `Seqs.DistinctFirstOccurrence` | client/src/App.jsx:122 | the elements of the deduplicated list appear in the order of their first occurrence in the input |
| `Grouping.GroupByCategory` | client/src/App.jsx:115-120 | the reduce's dictionary has exactly the display categories of the visible list as keys; each key's array is that category's products, in visible order, and never empty; the keys are created in first-occurrence order |
| `Grouping.Pushed` | client/src/App.jsx:117-118 | after creating the missing array and pushing, the keys are the old keys plus the product's display category; that key's array is the old one (or empty) with the product at the end; every other key is unchanged |
| `Grouping.SectionStep` | client/src/App.jsx:116-118 | creating the missing array and pushing the product turns the sections of a prefix into the sections of the prefix extended by that product |
| `Grouping.ExactlyOneSection` | client/src/App.jsx:115-120 | a visible product lands in the section of its own display category as many times as it is visible, and in no other section |
| `Grouping.SectionKeepsOrder` | client/src/App.jsx:115-120 | each section keeps the relative order of the visible list |
| `Grouping.Rows` | client/src/App.jsx:231-247 | every table row the dashboard renders section by section is a visible product |
| `Grouping.SectionsPartitionVisible` | client/src/App.jsx:115-120 | the sections, concatenated in key order, are a permutation of the visible list: nothing is dropped and nothing duplicated |
| `Grouping.EmptyStateIff` | client/src/App.jsx:224 | the grouping has no keys exactly when no product is visible |
| `Grouping.FilterMatchesSection` | client/src/App.jsx:110-122 | for any filter other than "All", the visible list equals that category's section iff the filter is neither "General" nor empty or no product lacks a category |
| `Grouping.UncategorisedOnlyUnderAll` | client/src/App.jsx:110-122 | a product without a category makes "General" appear in the category list and sits in the "General" section under "All", yet no named filter shows it |
| `Grouping.ReduceAsWritten` | client/src/App.jsx:115-120 | the reduce as written, with the lookup falling back to Object.prototype; when it does not throw, no key and no visible product's display category is an inherited member name |
| `Grouping.ReduceAsWrittenThrowsIff` | client/src/App.jsx:115-120 | the reduce as written throws iff some visible product's display category is a member name inherited from Object.prototype; otherwise it builds exactly the sections of `GroupOf` |
| `Grouping.ReduceAsWrittenAgrees` | client/src/App.jsx:115-120 | wherever the reduce as written does not throw, any grouping with the `GroupOf` sections, the corrected one included, is exactly its dictionary |
| `Grouping.ConstructorCategoryThrows` | client/src/App.jsx:117-118 | one product with category "constructor" makes the reduce as written throw, although its section is well defined |
| `Grouping.NamedAndUncategorised` | client/src/App.jsx:115-122 | a product in a named category followed by one without a category gives the category list [that category, "General"] and exactly those two sections |
| `Form.ApplyInput` | client/src/App.jsx:29-31 | an input sets the field it is named after to the entered value; every other field, the id included, keeps its value |
| `Form.NumberOrZero` | client/src/App.jsx:35-41 | the numeric value the stepper reads from a field (an empty field falling back to 0): an empty field gives 0, a number gives itself |
| `Form.StepUp` | client/src/App.jsx:34-36 | increasing gives the current quantity plus one, with an empty field counted as 0 |
| `Form.StepDown` | client/src/App.jsx:38-43 | decreasing never gives a negative quantity; it maps q >= 1 to q - 1, and an empty field or q <= 0 to 0 |
| `Form.StepperInverse` | client/src/App.jsx:34-43 | a decrease undoes an increase from any quantity that is not negative, and an increase undoes a decrease from any positive quantity |
| `Form.HasId` | client/src/App.jsx:89-92 | the `_id` guard passes exactly when `_id` is present and not the empty string; a missing or empty `_id` is refused |
| `Form.FormOf` | client/src/App.jsx:94-100 | the edit form holds the product's name, price, quantity and category, and its id is non-empty iff the product passes the `_id` guard |
| `Form.PayloadOf` | client/src/App.jsx:50-54 | the save body is the form with price and quantity converted to numbers, with an empty field counted as 0 |
| `Form.SaveRequest` | client/src/App.jsx:56-61 | add mode creates, edit mode updates the form's id, list mode sends nothing; a sent request carries the form's payload |
| `Form.UnchangedEditWritesBack` | client/src/App.jsx:56-100 | saving an edit form loaded from a product and left unchanged writes the product's own fields back to its own id |
| `App.InventoryApp.constructor` | client/src/App.jsx:5-12 | initial state: no products, list view, filter "All", blank form |
| `App.InventoryApp.Refresh` | client/src/App.jsx:19-26 | a successful fetch replaces the product list, a failed one keeps it; nothing else changes |
| `App.InventoryApp.HandleChange` | client/src/App.jsx:29-31 | the form becomes `ApplyInput` of the old form; mode, filter and products are unchanged |
| `App.InventoryApp.IncreaseQty` | client/src/App.jsx:34-36 | only the form's quantity changes, to `StepUp` of the old one |
| `App.InventoryApp.DecreaseQty` | client/src/App.jsx:38-43 | only the form's quantity changes, to `StepDown` of the old one, which is not negative |
| `App.InventoryApp.StartEdit` | client/src/App.jsx:87-102 | without a usable `_id` nothing changes and the call is refused; otherwise the form is loaded from the product and the mode becomes edit |
| `App.InventoryApp.StartAdd` | client/src/App.jsx:104-107 | the form is blank and the mode becomes add; products and filter are unchanged |
| `App.InventoryApp.Cancel` | client/src/App.jsx:182 | the mode becomes list; the form, products and filter are unchanged |
| `App.InventoryApp.SelectFilter` | client/src/App.jsx:210-214 | the chosen option becomes the filter and nothing else changes |
| `App.InventoryApp.HandleSave` | client/src/App.jsx:46-69 | the request is the one the mode selects, and an update always names a non-empty id; after success, or when there was nothing to send, the mode is list; after a failure it is unchanged |
| `App.InventoryApp.Dashboard` | client/src/App.jsx:110-122 | the sections and their order (creation order; see Left out for integer-like names) are those of the visible list; the filter options are the categories of all products; the empty notice shows iff nothing is visible; the sections come from the corrected `GroupByCategory` and equal the dictionary of the reduce as written wherever that does not throw, while where it throws (see Findings) the model renders that category's section |

## Findings

| source | as written | input that shows it | evidently intended | confidence | as-written member | corrected member |
|---|---|---|---|---|---|---|
| client/src/App.jsx:117-118 | `if (!groups[cat])` looks the category up on a plain object, so it also finds the members inherited from Object.prototype. For such a category no array is created, and `groups[cat].push(product)` is called on a function, or on the prototype for `__proto__`. That throws a TypeError, and the dashboard and the form both fail to render. | a visible product whose category is "constructor" (likewise "toString", "valueOf", "__proto__", …) | every display category gets its own array, created the first time the category is seen | high; not executed | `Grouping.ReduceAsWritten` | `Grouping.GroupByCategory` |

## Left out

- server/index.js is not part of this model. Its routes are thin wrappers over document-store calls whose behaviour lives in a model file that is not available.
- Network and asynchrony: the axios calls are replaced by parameters. `Refresh` takes the fetched list or a failure. `HandleSave` takes whether the server accepted the request. Overlapping requests and their ordering are not modelled.
- The refresh after a save or delete is `Refresh`, called separately. `HandleSave` does not fetch.
- `handleDelete` (client/src/App.jsx:71-85) is not modelled. It changes no component state itself: its effect reaches the client only through the store and the following refresh.
- Browser effects are not modelled: `alert`, `window.confirm` and `console`. The alert of a refused `startEdit` is the `false` result of `StartEdit`.
- React's update semantics are not modelled. `handleChange` spreads the `formData` of the render it was created in, while the stepper uses the functional form of `setState`. The model applies each handler to the current state, one at a time.
- Rendering is left out apart from a few pieces: the badge threshold, the section rows (`Rows`), the filter options and the empty notice. Which screen shows for which mode is also left out.
- JavaScript `Number()` coercion is left out: strings that are not numbers, decimals and floating-point prices. Price and quantity are integers, and an empty field counts as 0.
- A missing, `null` or empty category are all the empty string. A missing or `null` `_id` is `None`. A product always has a name, price and quantity.
- `App.InventoryApp.Dashboard`: it groups with the corrected `GroupByCategory`, so for a visible display category inherited from Object.prototype it renders that category's section where the source throws and renders nothing (see Findings).
- `App.InventoryApp.Dashboard`: its `order` is the key creation order of `GroupByCategory`, not JavaScript's `Object.keys` order for integer-like category names (next line).
- `Grouping.GroupByCategory`: `order` is the order in which keys were created. JavaScript's `Object.keys` lists integer-like names (such as "2024") first, in ascending numeric order. The model does not capture that ordering.
