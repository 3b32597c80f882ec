/** The `validateProduct` middleware: five field guards run in a fixed order,
    and the first one that fails decides the error. */
module Validation {
  import opened Text
  import opened Outcomes
  import opened Catalog

  /** A JSON value as it arrives in a parsed request body. `Undefined` is a
      field the body does not have; `Compound` is an object or an array. */
  datatype Json = Undefined | Null | Str(s: string) | Num(n: real) | Bool(b: bool) | Compound

  /** The fields of `req.body` the handlers read. An `id` in the body is
      carried along only to show that nothing uses it. */
  datatype Body = Body(
    id: Json,
    name: Json,
    description: Json,
    price: Json,
    category: Json,
    inStock: Json)

  /** The five fields, in the order their guards run. */
  datatype Field = Name | Description | Price | Category | InStock

  function Rank(f: Field): nat
  {
    match f
    case Name => 0
    case Description => 1
    case Price => 2
    case Category => 3
    case InStock => 4
  }

  /** The error message of each guard: "Product " + the field + what it
      must be. The messages are written as joined pieces, which lets the
      verifier read the characters `MessagesDistinct` needs. */
  function Message(f: Field): string
  {
    match f
    case Name => "Product " + "name" + StringRule
    case Description => "Product " + "description" + StringRule
    case Price => "Product " + "price" + " is required and must be a positive number."
    case Category => "Product " + "category" + StringRule
    case InStock => "Product " + "inStock status" + " is required and must be a boolean."
  }

  const StringRule := " is required and must be a non-empty string."

  /** The messages tell the fields apart: the ninth character is the
      first letter of the field's name. */
  lemma MessagesDistinct(f: Field, g: Field)
    ensures Message(f) == Message(g) ==> f == g
  {
    assert Message(Name)[8] == 'n';
    assert Message(Description)[8] == 'd';
    assert Message(Price)[8] == 'p';
    assert Message(Category)[8] == 'c';
    assert Message(InStock)[8] == 'i';
  }

  /** What each field must hold, stated directly: a string that is not all
      whitespace, a number above zero, or a boolean. */
  predicate Accepts(body: Body, f: Field)
  {
    match f
    case Name => body.name.Str? && Filled(body.name.s)
    case Description => body.description.Str? && Filled(body.description.s)
    case Price => body.price.Num? && body.price.n > 0.0
    case Category => body.category.Str? && Filled(body.category.s)
    case InStock => body.inStock.Bool?
  }

  /** `f` is the first field, in guard order, that is not acceptable. */
  predicate FirstRejected(body: Body, f: Field)
  {
    !Accepts(body, f) && forall g :: Rank(g) < Rank(f) ==> Accepts(body, g)
  }

  /** JavaScript's `!v`: undefined, null, false, 0 and the empty string are
      falsy. */
  predicate Falsy(v: Json)
  {
    v.Undefined? || v.Null? || v == Bool(false) || v == Num(0.0) || v == Str("")
  }

  /** `!v || typeof v !== 'string' || v.trim() === ''` */
  predicate StringGuardFails(v: Json)
  {
    Falsy(v) || !v.Str? || Trim(v.s) == ""
  }

  /** `typeof price !== 'number' || price <= 0` */
  predicate PriceGuardFails(v: Json)
  {
    !v.Num? || v.n <= 0.0
  }

  /** `typeof inStock !== 'boolean'` */
  predicate BooleanGuardFails(v: Json)
  {
    !v.Bool?
  }

  /** The string guard fails exactly when the value is not a string with a
      character other than whitespace: its `!v` test adds nothing. */
  lemma StringGuardAgrees(v: Json)
    ensures StringGuardFails(v) <==> !(v.Str? && Filled(v.s))
  {
    if v.Str? {
      TrimEmptyIffBlank(v.s);
    }
  }

  /** The validator's verdict: the typed fields of an accepted body, or the
      error of the first guard that failed. */
  datatype Verdict = Accepted(fields: NewProduct) | Rejected(error: Failure)

  /** `validateProduct`. It reads the body only. A body is accepted exactly
      when every field is acceptable; otherwise the error names the first
      field, in guard order, that is not. */
  function Validate(body: Body): (r: Verdict)
    ensures r.Accepted? <==> forall f :: Accepts(body, f)
    ensures r.Accepted? ==>
              && body.name == Str(r.fields.name) && body.description == Str(r.fields.description)
              && body.price == Num(r.fields.price) && body.category == Str(r.fields.category)
              && body.inStock == Bool(r.fields.inStock)
    ensures r.Rejected? ==> exists f :: FirstRejected(body, f) && r.error == ValidationError(Message(f))
  {
    StringGuardAgrees(body.name);
    StringGuardAgrees(body.description);
    StringGuardAgrees(body.category);
    assert (forall f :: Accepts(body, f)) <==>
             Accepts(body, Name) && Accepts(body, Description) && Accepts(body, Price)
             && Accepts(body, Category) && Accepts(body, InStock);
    if StringGuardFails(body.name) then Rejected(ValidationError(Message(Name)))
    else if StringGuardFails(body.description) then Rejected(ValidationError(Message(Description)))
    else if PriceGuardFails(body.price) then Rejected(ValidationError(Message(Price)))
    else if StringGuardFails(body.category) then Rejected(ValidationError(Message(Category)))
    else if BooleanGuardFails(body.inStock) then Rejected(ValidationError(Message(InStock)))
    else Accepted(NewProduct(body.name.s, body.description.s, body.price.n,
                             body.category.s, body.inStock.b))
  }

  /** The request body that carries a record's fields. */
  function BodyOf(p: Product): Body
  {
    Body(Str(p.id), Str(p.name), Str(p.description), Num(p.price), Str(p.category), Bool(p.inStock))
  }

  /** The validator accepts a record's own fields exactly when the record is
      well formed, and then hands back those very fields. */
  lemma ValidateRecord(p: Product)
    ensures Validate(BodyOf(p)) == Accepted(Fields(p)) <==> WellFormed(p)
    ensures WellFormed(p) || Validate(BodyOf(p)).Rejected?
  {
    var body := BodyOf(p);
    if WellFormed(p) {
      forall f ensures Accepts(body, f) {
      }
    } else {
      assert !Accepts(body, Name) || !Accepts(body, Description) || !Accepts(body, Price)
        || !Accepts(body, Category);
    }
  }

  /** A record built from an accepted body with any id is well formed. */
  lemma AcceptedIsWellFormed(body: Body, id: string)
    requires Validate(body).Accepted?
    ensures WellFormed(WithId(Validate(body).fields, id))
  {
    assert Accepts(body, Name) && Accepts(body, Description) && Accepts(body, Price)
      && Accepts(body, Category);
  }

  /** An `id` in the body never changes the verdict. */
  lemma ValidateIgnoresId(body: Body, id: Json)
    ensures Validate(body.(id := id)) == Validate(body)
  {
  }
}
