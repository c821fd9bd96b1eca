/**
 * The add/edit form of the inventory client: the form fields, the edits the
 * inputs make, the quantity stepper, and the request a save sends.
 */
module Form {
  import opened Wrappers
  import opened Products

  /** The display mode: browsing the list, or the form with create or update intent. */
  datatype View = List | Add | Edit

  /**
   * `formData`. A numeric field is `None` while the input is empty (the
   * string `''`); the id is the empty string outside an edit.
   */
  datatype FormData = FormData(id: string, name: string, price: Option<int>, quantity: Option<int>, category: string)

  /** The blank form `{ id: '', name: '', price: '', quantity: '', category: '' }`. */
  const EmptyForm := FormData("", "", None, None, "")

  /** The names of the form fields and what they hold. */
  datatype Field = Id | Name | Price | Quantity | Category
  datatype Value = Text(text: string) | Amount(amount: Option<int>)

  function Get(f: FormData, field: Field): Value {
    match field
    case Id => Text(f.id)
    case Name => Text(f.name)
    case Price => Amount(f.price)
    case Quantity => Amount(f.quantity)
    case Category => Text(f.category)
  }

  /** What one keystroke in one of the four inputs of the form delivers to `handleChange`. */
  datatype Input = NameInput(text: string) | PriceInput(amount: Option<int>)
                 | QuantityInput(amount: Option<int>) | CategoryInput(text: string)

  /** The field an input is named after (its `name` attribute). */
  function Target(input: Input): Field {
    match input
    case NameInput(_) => Name
    case PriceInput(_) => Price
    case QuantityInput(_) => Quantity
    case CategoryInput(_) => Category
  }

  function Entered(input: Input): Value {
    match input
    case NameInput(t) => Text(t)
    case PriceInput(a) => Amount(a)
    case QuantityInput(a) => Amount(a)
    case CategoryInput(t) => Text(t)
  }

  /** `{ ...formData, [name]: value }`: the named field takes the value, every other field keeps its own. */
  function ApplyInput(f: FormData, input: Input): (r: FormData)
    ensures Get(r, Target(input)) == Entered(input)
    ensures forall field :: field != Target(input) ==> Get(r, field) == Get(f, field)
    ensures r.id == f.id
  {
    match input
    case NameInput(t) => f.(name := t)
    case PriceInput(a) => f.(price := a)
    case QuantityInput(a) => f.(quantity := a)
    case CategoryInput(t) => f.(category := t)
  }

  /** `Number(v || 0)`: an empty numeric field counts as zero. */
  function NumberOrZero(v: Option<int>): (n: int)
    ensures v.None? ==> n == 0
    ensures v.Some? ==> n == v.value
  {
    match v
    case None => 0
    case Some(n) => n
  }

  /** `increaseQty`: one more than the current quantity, an empty field counting as zero. */
  function StepUp(q: Option<int>): (r: int)
    ensures q.None? ==> r == 1
    ensures q.Some? ==> r == q.value + 1
  {
    NumberOrZero(q) + 1
  }

  /** `decreaseQty`: one less than the current quantity, but never below zero. */
  function StepDown(q: Option<int>): (r: int)
    ensures r >= 0
    ensures q.Some? && q.value >= 1 ==> r == q.value - 1
    ensures q.None? || q.value <= 0 ==> r == 0
  {
    if NumberOrZero(q) - 1 > 0 then NumberOrZero(q) - 1 else 0
  }

  /** Stepping down undoes stepping up from any quantity that is not negative, and conversely above zero. */
  lemma StepperInverse(q: Option<int>)
    ensures NumberOrZero(q) >= 0 ==> StepDown(Some(StepUp(q))) == NumberOrZero(q)
    ensures NumberOrZero(q) >= 1 ==> StepUp(Some(StepDown(q))) == NumberOrZero(q)
  {
  }

  /** The guard of `startEdit`: `product._id` is present and not the empty string. */
  predicate HasId(p: Product)
    ensures p.id.None? ==> !HasId(p)
    ensures p.id == Some("") ==> !HasId(p)
    ensures p.id.Some? && p.id.value != "" ==> HasId(p)
  {
    p.id.Some? && p.id.value != ""
  }

  /** The form `startEdit` loads from a product: its fields, with `_id` as the id. */
  function FormOf(p: Product): (f: FormData)
    ensures f.id != "" <==> HasId(p)
    ensures HasId(p) ==> f.id == p.id.value
    ensures f.name == p.name && f.category == p.category
    ensures f.price == Some(p.price) && f.quantity == Some(p.quantity)
  {
    FormData(if p.id.Some? then p.id.value else "", p.name, Some(p.price), Some(p.quantity), p.category)
  }

  /** The JSON body of a save: the form with price and quantity converted by `Number`. */
  datatype Payload = Payload(id: string, name: string, price: int, quantity: int, category: string)

  /** The request `handleSave` sends: POST to the collection, PUT to one product's URL, or none. */
  datatype Request = Create(body: Payload) | Update(target: string, body: Payload) | NoRequest

  function PayloadOf(f: FormData): (b: Payload)
    ensures b.id == f.id && b.name == f.name && b.category == f.category
    ensures b.price == NumberOrZero(f.price) && b.quantity == NumberOrZero(f.quantity)
  {
    Payload(f.id, f.name, NumberOrZero(f.price), NumberOrZero(f.quantity), f.category)
  }

  /** The save target is chosen by the mode: create in add mode, update of the form's id in edit mode. */
  function SaveRequest(view: View, f: FormData): (r: Request)
    ensures r.Create? <==> view == Add
    ensures r.Update? <==> view == Edit
    ensures r.Update? ==> r.target == f.id
    ensures !r.NoRequest? ==> r.body == PayloadOf(f)
  {
    match view
    case Add => Create(PayloadOf(f))
    case Edit => Update(f.id, PayloadOf(f))
    case List => NoRequest
  }

  /** Saving an edit form that was loaded from a product and not changed writes that product back to its own id. */
  lemma UnchangedEditWritesBack(p: Product)
    requires HasId(p)
    ensures SaveRequest(Edit, FormOf(p)) ==
      Update(p.id.value, Payload(p.id.value, p.name, p.price, p.quantity, p.category))
  {
  }
}
