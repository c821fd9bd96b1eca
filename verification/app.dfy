/**
 * The `App` component as an object: its four state variables and the
 * handlers that update them. React's `setState` calls become field
 * assignments; the network and the browser are parameters.
 */
module App {
  import opened Wrappers
  import opened Products
  import opened Grouping
  import opened Form

  class InventoryApp {
    var products: seq<Product>
    var view: View
    var filterCategory: string
    var formData: FormData

    /** The edit form always carries the id of the product it updates. */
    ghost predicate Valid()
      reads this
    {
      view == Edit ==> formData.id != ""
    }

    /** The initial state: no products, the list view, no filter, a blank form. */
    constructor ()
      ensures Valid()
      ensures products == [] && view == List && filterCategory == All && formData == EmptyForm
    {
      products := [];
      view := List;
      filterCategory := All;
      formData := EmptyForm;
    }

    /** `fetchProducts`: a successful fetch replaces the list; a failed one leaves it as it was. */
    method Refresh(fetched: Option<seq<Product>>)
      requires Valid()
      modifies this
      ensures Valid()
      ensures products == if fetched.Some? then fetched.value else old(products)
      ensures view == old(view) && filterCategory == old(filterCategory) && formData == old(formData)
    {
      if fetched.Some? {
        products := fetched.value;
      }
    }

    /** `handleChange`: one input edits its own field of the form and nothing else. */
    method HandleChange(input: Input)
      requires Valid()
      modifies this
      ensures Valid()
      ensures formData == ApplyInput(old(formData), input)
      ensures products == old(products) && view == old(view) && filterCategory == old(filterCategory)
    {
      formData := ApplyInput(formData, input);
    }

    /** `increaseQty`: the quantity field goes up by one; the other fields are kept. */
    method IncreaseQty()
      requires Valid()
      modifies this
      ensures Valid()
      ensures formData == old(formData).(quantity := Some(StepUp(old(formData.quantity))))
      ensures products == old(products) && view == old(view) && filterCategory == old(filterCategory)
    {
      formData := formData.(quantity := Some(StepUp(formData.quantity)));
    }

    /** `decreaseQty`: the quantity field goes down by one, stopping at zero; the other fields are kept. */
    method DecreaseQty()
      requires Valid()
      modifies this
      ensures Valid()
      ensures formData == old(formData).(quantity := Some(StepDown(old(formData.quantity))))
      ensures formData.quantity.value >= 0
      ensures products == old(products) && view == old(view) && filterCategory == old(filterCategory)
    {
      formData := formData.(quantity := Some(StepDown(formData.quantity)));
    }

    /**
     * `startEdit`: a product without an id is refused (the alert, `accepted`
     * false) and nothing changes; otherwise its fields fill the form and the
     * edit view opens.
     */
    method StartEdit(p: Product) returns (accepted: bool)
      requires Valid()
      modifies this
      ensures Valid()
      ensures accepted <==> HasId(p)
      ensures accepted ==> formData == FormOf(p) && view == Edit
      ensures !accepted ==> formData == old(formData) && view == old(view)
      ensures products == old(products) && filterCategory == old(filterCategory)
    {
      if !HasId(p) {
        return false;
      }
      formData := FormOf(p);
      view := Edit;
      accepted := true;
    }

    /** `startAdd`: a blank form in the add view. */
    method StartAdd()
      requires Valid()
      modifies this
      ensures Valid()
      ensures formData == EmptyForm && view == Add
      ensures products == old(products) && filterCategory == old(filterCategory)
    {
      formData := EmptyForm;
      view := Add;
    }

    /** The Cancel button: back to the list, the form left as it was. */
    method Cancel()
      requires Valid()
      modifies this
      ensures Valid()
      ensures view == List
      ensures formData == old(formData) && products == old(products) && filterCategory == old(filterCategory)
    {
      view := List;
    }

    /** The category select: the chosen option becomes the filter. */
    method SelectFilter(choice: string)
      requires Valid()
      modifies this
      ensures Valid()
      ensures filterCategory == choice
      ensures products == old(products) && view == old(view) && formData == old(formData)
    {
      filterCategory := choice;
    }

    /**
     * `handleSave`: sends the request the mode selects; `succeeded` is the
     * server's answer. After a success (or with no request to send) the list
     * view returns; after a failure (the alert) the form stays open. An
     * update always names a product id.
     */
    method HandleSave(succeeded: bool) returns (request: Request)
      requires Valid()
      modifies this
      ensures Valid()
      ensures request == SaveRequest(old(view), old(formData))
      ensures request.Update? ==> request.target != ""
      ensures view == if succeeded || request.NoRequest? then List else old(view)
      ensures formData == old(formData) && products == old(products) && filterCategory == old(filterCategory)
    {
      request := SaveRequest(view, formData);
      if succeeded || request.NoRequest? {
        view := List;
      }
    }

    /**
     * What the dashboard renders from the state: the sections and their
     * order, the options of the category select, and whether the
     * "No products found" notice shows. The sections come from the
     * corrected `GroupByCategory`: wherever the reduce as written does not
     * throw they are its dictionary, and where it throws (a display category
     * inherited from Object.prototype) the source renders nothing while this
     * model renders that category's section.
     */
    method Dashboard() returns (sections: map<string, seq<Product>>, order: seq<string>, options: seq<string>, empty: bool)
      ensures sections.Keys == KeySet(Visible(products, filterCategory))
      ensures forall k :: k in sections ==> sections[k] == GroupOf(Visible(products, filterCategory), k)
      ensures order == Categories(Visible(products, filterCategory))
      ensures options == Categories(products)
      ensures empty <==> Visible(products, filterCategory) == []
      ensures ReduceAsWritten(Visible(products, filterCategory)).Some? ==>
        sections == ReduceAsWritten(Visible(products, filterCategory)).value
    {
      var visible := Visible(products, filterCategory);
      sections, order := GroupByCategory(visible);
      options := Categories(products);
      EmptyStateIff(visible);
      ReduceAsWrittenAgrees(visible, sections);
      empty := |sections| == 0;
    }
  }
}
