/** The shared data shapes and validation rules: the two tables, the cart item,
    the checkout form, the custom-project form and the publication request
    bodies. Each schema is a function from the raw input to either the validated
    value or the list of issues the schema library reports, one per failing
    check, in the order the fields are declared. */
module Schema {
  import opened Wrappers
  import opened Strings

  // ---------------------------------------------------------------------------
  // Tables
  // ---------------------------------------------------------------------------

  /** A row of the `publications` table, with the field names the API uses.
      The price is the decimal column's text (for example "29.90"). */
  datatype Publication = Publication(
    id: string, title: string, description: string,
    imageUrl: string, monthlyPrice: string, createdAt: string)

  /** A row of the `settings` table: a unique key and its value. */
  datatype Setting = Setting(key: string, value: string)

  // ---------------------------------------------------------------------------
  // Issues
  // ---------------------------------------------------------------------------

  /** One failed check: the field it is about and the message shown for it. */
  datatype Issue = Issue(path: string, message: string)

  const NameTooShort := "Nome deve ter pelo menos 2 caracteres"
  const CityTooShort := "Cidade deve ter pelo menos 2 caracteres"
  const PaymentRequired := "Selecione um método de pagamento"
  const DescriptionTooShort := "Descrição deve ter pelo menos 10 caracteres"
  const NotInteger := "Expected integer, received float"
  const NotPositive := "Number must be greater than 0"
  const RequiredMessage := "Required"

  /** The issue of a `.min(n, message)` check: JavaScript measures the length in UTF-16 code units. */
  function MinLength(path: string, value: string, min: nat, message: string): seq<Issue>
  {
    if Utf16Length(value) < min then [Issue(path, message)] else []
  }

  // ---------------------------------------------------------------------------
  // Cart item
  // ---------------------------------------------------------------------------

  /** A line of the cart. The price is held in cents; the quantity is a whole number. */
  datatype CartItem = CartItem(
    publicationId: string, title: string, imageUrl: string,
    monthlyPrice: nat, quantity: int)

  /** A cart item as it arrives, with its quantity as an arbitrary JavaScript number. */
  datatype CartItemInput = CartItemInput(
    publicationId: string, title: string, imageUrl: string,
    monthlyPrice: nat, quantity: real)

  /** `z.number().int().positive()`: both checks run, so a negative fraction draws two issues. */
  function QuantityIssues(q: real): seq<Issue>
  {
    (if q.Floor as real != q then [Issue("quantity", NotInteger)] else [])
    + (if q <= 0.0 then [Issue("quantity", NotPositive)] else [])
  }

  /** `cartItemSchema`: a cart item is accepted exactly when its quantity is a whole number of at least 1. */
  function ValidateCartItem(input: CartItemInput): (r: Result<CartItem, seq<Issue>>)
    ensures r.Success? <==> input.quantity.Floor as real == input.quantity && input.quantity.Floor >= 1
    ensures r.Success? ==>
      && r.value.quantity >= 1 && r.value.quantity as real == input.quantity
      && r.value == CartItem(input.publicationId, input.title, input.imageUrl, input.monthlyPrice, r.value.quantity)
    ensures r.Failure? ==> r.error != [] && forall k :: 0 <= k < |r.error| ==> r.error[k].path == "quantity"
  {
    var issues := QuantityIssues(input.quantity);
    if issues == [] then
      Success(CartItem(input.publicationId, input.title, input.imageUrl, input.monthlyPrice, input.quantity.Floor))
    else Failure(issues)
  }

  // ---------------------------------------------------------------------------
  // Checkout form
  // ---------------------------------------------------------------------------

  datatype PaymentMethod = Debit | Credit | Cash | Pix

  /** The enum's value for each payment method. */
  function PaymentMethodName(m: PaymentMethod): string
  {
    match m
    case Debit => "debit"
    case Credit => "credit"
    case Cash => "cash"
    case Pix => "pix"
  }

  /** Membership in `z.enum(["debit", "credit", "cash", "pix"])`. */
  function ParsePaymentMethod(s: string): (m: Option<PaymentMethod>)
    ensures m.Some? ==> PaymentMethodName(m.value) == s
    ensures forall p: PaymentMethod :: PaymentMethodName(p) == s ==> m == Some(p)
  {
    if s == "debit" then Some(Debit)
    else if s == "credit" then Some(Credit)
    else if s == "cash" then Some(Cash)
    else if s == "pix" then Some(Pix)
    else None
  }

  /** The schema library's message for a string outside the enum. */
  function InvalidEnumMessage(received: string): string
  {
    "Invalid enum value. Expected 'debit' | 'credit' | 'cash' | 'pix', received '" + received + "'"
  }

  /** The checkout form's raw values. The text fields always hold strings (the
      form starts them as ''); the payment method is missing until one is picked. */
  datatype CheckoutForm = CheckoutForm(
    name: string, city: string, observation: Option<string>, paymentMethod: Option<string>)

  /** A checkout the schema accepted. */
  datatype CheckoutData = CheckoutData(
    name: string, city: string, observation: Option<string>, paymentMethod: PaymentMethod)

  function PaymentIssues(v: Option<string>): seq<Issue>
  {
    match v
    case None => [Issue("paymentMethod", PaymentRequired)]
    case Some(s) => if ParsePaymentMethod(s).Some? then [] else [Issue("paymentMethod", InvalidEnumMessage(s))]
  }

  /** The issues of `checkoutSchema`, in field order; the observation is optional and never draws one. */
  function CheckoutIssues(form: CheckoutForm): seq<Issue>
  {
    MinLength("name", form.name, 2, NameTooShort)
    + MinLength("city", form.city, 2, CityTooShort)
    + PaymentIssues(form.paymentMethod)
  }

  /** `checkoutSchema`: accepted exactly when name and city have at least two
      code units and the payment method is one of the four; the accepted value
      carries the form's own fields. */
  function ValidateCheckout(form: CheckoutForm): (r: Result<CheckoutData, seq<Issue>>)
    ensures r.Success? <==>
      && Utf16Length(form.name) >= 2 && Utf16Length(form.city) >= 2
      && form.paymentMethod.Some? && ParsePaymentMethod(form.paymentMethod.value).Some?
    ensures r.Success? ==>
      && r.value.name == form.name && r.value.city == form.city && r.value.observation == form.observation
      && form.paymentMethod == Some(PaymentMethodName(r.value.paymentMethod))
    ensures r.Failure? ==> r.error == CheckoutIssues(form) && r.error != []
  {
    var issues := CheckoutIssues(form);
    if issues == [] then
      Success(CheckoutData(form.name, form.city, form.observation, ParsePaymentMethod(form.paymentMethod.value).value))
    else Failure(issues)
  }

  /** Which issue the checkout schema reports for which field: each one appears
      exactly when its check fails, and no other field is ever blamed. */
  lemma CheckoutNameIssue(form: CheckoutForm)
    ensures Issue("name", NameTooShort) in CheckoutIssues(form) <==> Utf16Length(form.name) < 2
  {
    IssuePaths(MinLength("name", form.name, 2, NameTooShort), MinLength("city", form.city, 2, CityTooShort),
               PaymentIssues(form.paymentMethod), form);
  }

  lemma CheckoutCityIssue(form: CheckoutForm)
    ensures Issue("city", CityTooShort) in CheckoutIssues(form) <==> Utf16Length(form.city) < 2
  {
    IssuePaths(MinLength("name", form.name, 2, NameTooShort), MinLength("city", form.city, 2, CityTooShort),
               PaymentIssues(form.paymentMethod), form);
  }

  lemma CheckoutPaymentIssue(form: CheckoutForm)
    ensures Issue("paymentMethod", PaymentRequired) in CheckoutIssues(form) <==> form.paymentMethod.None?
  {
    IssuePaths(MinLength("name", form.name, 2, NameTooShort), MinLength("city", form.city, 2, CityTooShort),
               PaymentIssues(form.paymentMethod), form);
    PaymentRequiredOnlyWhenMissing(form.paymentMethod);
  }

  lemma PaymentRequiredOnlyWhenMissing(v: Option<string>)
    ensures Issue("paymentMethod", PaymentRequired) in PaymentIssues(v) <==> v.None?
  {
    if v.Some? {
      var m := InvalidEnumMessage(v.value);
      assert |m| > |PaymentRequired|;
      assert PaymentIssues(v) == [] || PaymentIssues(v) == [Issue("paymentMethod", m)];
    }
  }

  lemma CheckoutIssuePaths(form: CheckoutForm)
    ensures forall k :: 0 <= k < |CheckoutIssues(form)| ==>
      CheckoutIssues(form)[k].path in {"name", "city", "paymentMethod"}
  {
    IssuePaths(MinLength("name", form.name, 2, NameTooShort), MinLength("city", form.city, 2, CityTooShort),
               PaymentIssues(form.paymentMethod), form);
  }

  /** The issues of the three checks come one after another, each under its own path. */
  lemma IssuePaths(n: seq<Issue>, c: seq<Issue>, p: seq<Issue>, form: CheckoutForm)
    requires n == MinLength("name", form.name, 2, NameTooShort)
    requires c == MinLength("city", form.city, 2, CityTooShort)
    requires p == PaymentIssues(form.paymentMethod)
    ensures CheckoutIssues(form) == n + c + p
    ensures forall x :: x in n + c + p <==> x in n || x in c || x in p
    ensures forall x :: x in n ==> x.path == "name"
    ensures forall x :: x in c ==> x.path == "city"
    ensures forall x :: x in p ==> x.path == "paymentMethod"
    ensures "name" != "city" && "name" != "paymentMethod" && "city" != "paymentMethod"
  {
    assert "name"[0] != "city"[0] && |"name"| != |"paymentMethod"| && |"city"| != |"paymentMethod"|;
  }

  /** The observation, missing or present, never changes whether a checkout is accepted. */
  lemma ObservationNeverRejects(form: CheckoutForm, observation: Option<string>)
    ensures ValidateCheckout(form.(observation := observation)).Success? == ValidateCheckout(form).Success?
  {
  }

  // ---------------------------------------------------------------------------
  // Custom-project form
  // ---------------------------------------------------------------------------

  datatype CustomProjectForm = CustomProjectForm(name: string, description: string)

  /** `customProjectSchema`: a name of at least 2 and a description of at least 10 code units. */
  function ValidateCustomProject(form: CustomProjectForm): (r: Result<CustomProjectForm, seq<Issue>>)
    ensures r.Success? <==> Utf16Length(form.name) >= 2 && Utf16Length(form.description) >= 10
    ensures r.Success? ==> r.value == form
    ensures r.Failure? ==>
      && (Issue("name", NameTooShort) in r.error <==> Utf16Length(form.name) < 2)
      && (Issue("description", DescriptionTooShort) in r.error <==> Utf16Length(form.description) < 10)
  {
    var issues := MinLength("name", form.name, 2, NameTooShort)
      + MinLength("description", form.description, 10, DescriptionTooShort);
    if issues == [] then Success(form) else Failure(issues)
  }

  // ---------------------------------------------------------------------------
  // Publication request bodies
  // ---------------------------------------------------------------------------

  /** A member of a JSON request body: missing, a string, or a value of another
      JSON type (named by that type, for example "number" or "null"). */
  datatype Member = Missing | Text(text: string) | NotText(typeName: string)

  /** The members of a publication body that the schemas look at; any other member is dropped. */
  datatype PublicationBody = PublicationBody(
    id: Member, title: Member, description: Member,
    imageUrl: Member, monthlyPrice: Member, createdAt: Member)

  datatype InsertPublication = InsertPublication(
    title: string, description: string, imageUrl: string, monthlyPrice: string)

  datatype UpdatePublication = UpdatePublication(
    id: Option<string>, title: Option<string>, description: Option<string>,
    imageUrl: Option<string>, monthlyPrice: Option<string>)

  function TypeIssue(path: string, typeName: string): Issue
  {
    Issue(path, "Expected string, received " + typeName)
  }

  function RequiredIssues(path: string, m: Member): seq<Issue>
  {
    match m
    case Missing => [Issue(path, RequiredMessage)]
    case Text(_) => []
    case NotText(t) => [TypeIssue(path, t)]
  }

  function OptionalIssues(path: string, m: Member): seq<Issue>
  {
    match m
    case NotText(t) => [TypeIssue(path, t)]
    case _ => []
  }

  function AsOption(m: Member): Option<string>
  {
    match m
    case Text(s) => Some(s)
    case _ => None
  }

  /** `insertPublicationSchema`: the table's schema without `id` and `createdAt`
      (those two are dropped), so the four other columns are all required strings. */
  function ValidateInsertPublication(body: PublicationBody): (r: Result<InsertPublication, seq<Issue>>)
    ensures r.Success? <==> body.title.Text? && body.description.Text? && body.imageUrl.Text? && body.monthlyPrice.Text?
    ensures r.Success? ==> r.value == InsertPublication(
      body.title.text, body.description.text, body.imageUrl.text, body.monthlyPrice.text)
    ensures r.Failure? ==> r.error != []
  {
    var issues := RequiredIssues("title", body.title) + RequiredIssues("description", body.description)
      + RequiredIssues("imageUrl", body.imageUrl) + RequiredIssues("monthlyPrice", body.monthlyPrice);
    if issues == [] then
      Success(InsertPublication(body.title.text, body.description.text, body.imageUrl.text, body.monthlyPrice.text))
    else Failure(issues)
  }

  /** `updatePublicationSchema`: the table's schema without `createdAt`, every
      field optional. A body is accepted exactly when none of its five fields
      holds a non-string, and a field is set exactly when the body has it. */
  function ValidateUpdatePublication(body: PublicationBody): (r: Result<UpdatePublication, seq<Issue>>)
    ensures r.Success? <==>
      && !body.id.NotText? && !body.title.NotText? && !body.description.NotText?
      && !body.imageUrl.NotText? && !body.monthlyPrice.NotText?
    ensures r.Success? ==>
      && (r.value.title.Some? <==> body.title.Text?) && (body.title.Text? ==> r.value.title.value == body.title.text)
      && (r.value.description.Some? <==> body.description.Text?)
      && (body.description.Text? ==> r.value.description.value == body.description.text)
      && (r.value.imageUrl.Some? <==> body.imageUrl.Text?)
      && (body.imageUrl.Text? ==> r.value.imageUrl.value == body.imageUrl.text)
      && (r.value.monthlyPrice.Some? <==> body.monthlyPrice.Text?)
      && (body.monthlyPrice.Text? ==> r.value.monthlyPrice.value == body.monthlyPrice.text)
      && (r.value.id.Some? <==> body.id.Text?) && (body.id.Text? ==> r.value.id.value == body.id.text)
  {
    var issues := OptionalIssues("id", body.id) + OptionalIssues("title", body.title)
      + OptionalIssues("description", body.description) + OptionalIssues("imageUrl", body.imageUrl)
      + OptionalIssues("monthlyPrice", body.monthlyPrice);
    if issues == [] then
      Success(UpdatePublication(AsOption(body.id), AsOption(body.title), AsOption(body.description),
        AsOption(body.imageUrl), AsOption(body.monthlyPrice)))
    else Failure(issues)
  }

  /** Every body the insert schema accepts (without a non-string `id`) is also a
      valid update that sets all four fields to the same values. */
  lemma InsertableIsUpdatable(body: PublicationBody)
    requires ValidateInsertPublication(body).Success? && !body.id.NotText?
    ensures ValidateUpdatePublication(body).Success?
    ensures var ins := ValidateInsertPublication(body).value;
            var upd := ValidateUpdatePublication(body).value;
            upd.title == Some(ins.title) && upd.description == Some(ins.description)
            && upd.imageUrl == Some(ins.imageUrl) && upd.monthlyPrice == Some(ins.monthlyPrice)
  {
  }
}
