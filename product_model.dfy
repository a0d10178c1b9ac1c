/**
 * The product schema: required name, price, category, stock and description,
 * an optional image URL with no default, a two-valued status that defaults
 * to active, and creation/modification timestamps. Price and stock carry no
 * lower bound. `Construct` is what creating a document does with the values
 * it is given: casting, defaults and validation.
 */
module ProductModel {
  import opened Wrappers
  import opened Text
  import opened JsNumbers

  datatype Status = Active | Inactive

  function StatusName(s: Status): string {
    match s
    case Active => "active"
    case Inactive => "inactive"
  }

  /** The enum check: only the two literal names are statuses. */
  function ParseStatus(s: string): (r: Option<Status>)
    ensures r.Some? <==> s == "active" || s == "inactive"
  {
    if s == "active" then Some(Active) else if s == "inactive" then Some(Inactive) else None
  }

  lemma ParseStatusName(s: Status, name: string)
    ensures ParseStatus(StatusName(s)) == Some(s)
    ensures ParseStatus(name) == Some(s) ==> name == StatusName(s)
  {
  }

  datatype Product = Product(
    name: string,
    description: string,
    price: int,
    category: string,
    stock: int,
    imageUrl: Option<string>,
    status: Status,
    createdAt: int,
    updatedAt: int)

  /** A stored product satisfies the schema's `required` rules (a required string is non-empty). */
  predicate Conforms(p: Product) {
    p.name != "" && p.description != "" && p.category != ""
  }

  /** A numeric value as handed to the schema: absent, a number, or something it cannot cast. */
  datatype NumInput = NoNumber | Number(value: int) | Uncastable

  /** A form field cast to a number: absent or "" is no value, text that is not a number fails. */
  function FormNumber(s: Option<string>): (r: NumInput)
    ensures !Truthy(s) <==> r == NoNumber
  {
    if !Truthy(s) then NoNumber
    else match JsNumber(s.value)
      case Finite(v) => Number(v)
      case NaN => Uncastable
  }

  /** A value already converted with `Number(...)`: NaN cannot be stored. */
  function FromJsNumber(n: Num): (r: NumInput)
    ensures r != NoNumber
    ensures r.Number? <==> n.Finite?
  {
    match n
    case Finite(v) => Number(v)
    case NaN => Uncastable
  }

  /** The values given to the product constructor. */
  datatype Draft = Draft(
    name: Option<string>,
    description: Option<string>,
    price: NumInput,
    category: Option<string>,
    stock: NumInput,
    imageUrl: Option<string>,
    status: Option<string>)

  /** Creating and validating a product document at time `now`; None is a validation error. */
  function Construct(d: Draft, now: int): (r: Option<Product>)
    ensures r.Some? <==>
      Truthy(d.name) && Truthy(d.description) && Truthy(d.category) &&
      d.price.Number? && d.stock.Number? &&
      (d.status.None? || ParseStatus(d.status.value).Some?)
    ensures r.Some? ==> Conforms(r.value)
    ensures r.Some? ==> (r.value.name == d.name.value && r.value.description == d.description.value &&
                         r.value.category == d.category.value && r.value.price == d.price.value &&
                         r.value.stock == d.stock.value)
    ensures r.Some? ==> r.value.imageUrl == d.imageUrl
    ensures r.Some? ==> r.value.status == if d.status.None? then Active else ParseStatus(d.status.value).value
    ensures r.Some? ==> r.value.createdAt == now && r.value.updatedAt == now
  {
    if !Truthy(d.name) || !Truthy(d.description) || !Truthy(d.category) then None
    else if !d.price.Number? || !d.stock.Number? then None
    else
      var status := if d.status.None? then Some(Active) else ParseStatus(d.status.value);
      if status.None? then None
      else Some(Product(d.name.value, d.description.value, d.price.value, d.category.value,
                        d.stock.value, d.imageUrl, status.value, now, now))
  }

  /** Status defaults to active, the image URL has no default, and negative price and stock are accepted. */
  lemma ConstructDefaults(name: string, description: string, category: string, price: int, stock: int, now: int)
    requires name != "" && description != "" && category != ""
    ensures var r := Construct(Draft(Some(name), Some(description), Number(price), Some(category), Number(stock), None, None), now);
      r.Some? && r.value.status == Active && r.value.imageUrl.None? && r.value.price == price && r.value.stock == stock
  {
  }

  /** A status outside the enum, or a missing required field, is rejected. */
  lemma ConstructRejects(d: Draft, now: int)
    ensures d.status == Some("archived") ==> Construct(d, now).None?
    ensures d.name.None? || d.stock == NoNumber || d.price == Uncastable ==> Construct(d, now).None?
  {
  }
}
