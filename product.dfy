/** The product record and the constraints, setters and defaults of its schema. */
module ProductModel {
  import opened Common
  import opened Text

  /** A stored product. Prices are integer cents; `createdAt` is the position of
      the product in creation order. */
  datatype Product = Product(
    id: Id,
    name: string,
    description: string,
    price: int,
    category: string,
    stock: int,
    image: string,
    createdAt: nat)

  /** The six writable fields as a request supplies them; `None` is a field the
      request leaves undefined. */
  datatype ProductInput = ProductInput(
    name: Option<string>,
    description: Option<string>,
    price: Option<int>,
    category: Option<string>,
    stock: Option<int>,
    image: Option<string>)

  /** Schema validation failures carry no HTTP status of their own. A failed
      `create` names the model in its message, a failed update with validators
      on does not; the list of failing paths that follows is not modelled. */
  const ValidationFailed := AppError(0, "Product validation failed")
  const UpdateValidationFailed := AppError(0, "Validation failed")

  /** A string path with `trim: true` and `required: true`: the setter trims,
      and the required check refuses the empty result. */
  predicate RequiredTextOk(v: string) {
    Trim(v) != ""
  }

  /** Every field of a stored product satisfies its schema constraint: the
      texts are trimmed, the required ones non-empty, price and stock are not
      negative. */
  predicate Conforms(p: Product) {
    && p.name != "" && IsTrimmed(p.name)
    && p.description != "" && IsTrimmed(p.description)
    && p.category != "" && IsTrimmed(p.category)
    && p.price >= 0
    && p.stock >= 0
    && IsTrimmed(p.image)
  }

  /** The fields of a create request pass validation: the three required texts
      are non-blank, the price is present and non-negative, and the stock, when
      given, is non-negative. */
  predicate CreateInputOk(input: ProductInput) {
    && input.name.Some? && RequiredTextOk(input.name.value)
    && input.description.Some? && RequiredTextOk(input.description.value)
    && input.category.Some? && RequiredTextOk(input.category.value)
    && input.price.Some? && input.price.value >= 0
    && (input.stock.None? || input.stock.value >= 0)
  }

  /** Casting a create request through the schema: trimmed texts, stock
      defaulting to 0, image defaulting to the empty string. */
  function NewProduct(input: ProductInput, id: Id, createdAt: nat): (r: Result<Product, AppError>)
    ensures r.Success? <==> CreateInputOk(input)
    ensures r.Failure? ==> r.error == ValidationFailed
    ensures r.Success? ==>
      && Conforms(r.value)
      && r.value.id == id && r.value.createdAt == createdAt
      && r.value.name == Trim(input.name.value)
      && r.value.description == Trim(input.description.value)
      && r.value.category == Trim(input.category.value)
      && r.value.price == input.price.value
      && r.value.stock == input.stock.GetOr(0)
      && r.value.image == Trim(input.image.GetOr(""))
  {
    if !CreateInputOk(input) then Failure(ValidationFailed)
    else
      Success(Product(
        id,
        Trim(input.name.value),
        Trim(input.description.value),
        input.price.value,
        Trim(input.category.value),
        input.stock.GetOr(0),
        Trim(input.image.GetOr("")),
        createdAt))
  }

  /** The update validators run on the paths an update sets: each field the
      update supplies must satisfy its own constraint. */
  predicate UpdateInputOk(input: ProductInput) {
    && (input.name.None? || RequiredTextOk(input.name.value))
    && (input.description.None? || RequiredTextOk(input.description.value))
    && (input.category.None? || RequiredTextOk(input.category.value))
    && (input.price.None? || input.price.value >= 0)
    && (input.stock.None? || input.stock.value >= 0)
  }

  function TrimmedOr(v: Option<string>, current: string): string {
    match v
    case Some(s) => Trim(s)
    case None => current
  }

  /** The record after an update: each supplied field is replaced (texts
      trimmed), each undefined field is kept, identity and creation time stay. */
  function ApplyUpdate(p: Product, input: ProductInput): (q: Product)
    requires UpdateInputOk(input)
    ensures q.id == p.id && q.createdAt == p.createdAt
    ensures q.price == input.price.GetOr(p.price) && q.stock == input.stock.GetOr(p.stock)
    ensures q.name == TrimmedOr(input.name, p.name)
    ensures q.description == TrimmedOr(input.description, p.description)
    ensures q.category == TrimmedOr(input.category, p.category)
    ensures q.image == TrimmedOr(input.image, p.image)
    ensures Conforms(p) ==> Conforms(q)
  {
    p.(name := TrimmedOr(input.name, p.name),
       description := TrimmedOr(input.description, p.description),
       price := input.price.GetOr(p.price),
       category := TrimmedOr(input.category, p.category),
       stock := input.stock.GetOr(p.stock),
       image := TrimmedOr(input.image, p.image))
  }
}
