/** The checkout page (src/pages/CheckoutPage.tsx): validation of the shipping and
    payment form on submit, the success path, and the redirect for an empty cart. The
    cart is only seen through its items; the order id is a parameter. */
module Checkout {
  import opened Seqs

  /** `formData`. */
  datatype CheckoutForm = CheckoutForm(
    firstName: string,
    lastName: string,
    email: string,
    address: string,
    city: string,
    state: string,
    zipCode: string,
    paymentMethod: string,
    cardNumber: string,
    cardExpiry: string,
    cardCvc: string)

  /** The payment method whose card fields are checked. */
  const CreditCard: string := "credit"

  /** The names of the contact and shipping fields. */
  datatype ContactField = FirstName | LastName | Email | Address | City | State | ZipCode

  /** `requiredFields`. */
  const RequiredFields: seq<ContactField> := [FirstName, LastName, Email, Address, City, State, ZipCode]

  /** `formData[field]`. */
  function ValueOf(f: CheckoutForm, field: ContactField): string {
    match field
    case FirstName => f.firstName
    case LastName => f.lastName
    case Email => f.email
    case Address => f.address
    case City => f.city
    case State => f.state
    case ZipCode => f.zipCode
  }

  function IsBlankIn(f: CheckoutForm): ContactField -> bool {
    (field: ContactField) => ValueOf(f, field) == ""
  }

  /** Every contact field is in the required list. */
  lemma AllContactFieldsRequired(field: ContactField)
    ensures field in RequiredFields
  {
    var i := match field
      case FirstName => 0 case LastName => 1 case Email => 2 case Address => 3
      case City => 4 case State => 5 case ZipCode => 6;
    assert RequiredFields[i] == field;
  }

  /** Some contact or shipping field is blank. */
  predicate ContactIncomplete(f: CheckoutForm) {
    f.firstName == "" || f.lastName == "" || f.email == "" || f.address == "" ||
    f.city == "" || f.state == "" || f.zipCode == ""
  }

  /** `emptyFields`: the required fields left blank, in the order they are listed; it is
      empty exactly when every contact field is filled in. */
  function EmptyFields(f: CheckoutForm): (r: seq<ContactField>)
    ensures forall field :: field in r ==> ValueOf(f, field) == ""
    ensures forall field :: ValueOf(f, field) == "" ==> field in r
    ensures r == [] <==> !ContactIncomplete(f)
  {
    BlankFieldsListed(f);
    Filter(RequiredFields, IsBlankIn(f))
  }

  /** The filter over the required list misses no blank field, so it is empty exactly
      when no contact field is blank. */
  lemma BlankFieldsListed(f: CheckoutForm)
    ensures forall field :: ValueOf(f, field) == "" ==> field in Filter(RequiredFields, IsBlankIn(f))
    ensures Filter(RequiredFields, IsBlankIn(f)) == [] <==> !ContactIncomplete(f)
  {
    var r := Filter(RequiredFields, IsBlankIn(f));
    forall field | ValueOf(f, field) == "" ensures field in r {
      AllContactFieldsRequired(field);
    }
    if ContactIncomplete(f) {
      var blank := if f.firstName == "" then FirstName else if f.lastName == "" then LastName
        else if f.email == "" then Email else if f.address == "" then Address
        else if f.city == "" then City else if f.state == "" then State else ZipCode;
      assert blank in r;
    }
    if r != [] {
      assert r[0] in r;
    }
  }

  /** Paying by card without all three card fields. */
  predicate CardIncomplete(f: CheckoutForm) {
    f.paymentMethod == CreditCard && (f.cardNumber == "" || f.cardExpiry == "" || f.cardCvc == "")
  }

  /** How a submission ends. */
  datatype Verdict = MissingRequired | MissingCardDetails | Placed(orderId: string)

  /** `handleSubmit`'s decision: the required-field check first, then, for card payment
      only, the card check; otherwise the order is placed under `orderId`. */
  function Submit(f: CheckoutForm, orderId: string): (v: Verdict)
    ensures v == MissingRequired <==> ContactIncomplete(f)
    ensures v == MissingCardDetails <==> !ContactIncomplete(f) && CardIncomplete(f)
    ensures v.Placed? <==> !ContactIncomplete(f) && !CardIncomplete(f)
    ensures v.Placed? ==> v.orderId == orderId
  {
    var missing := EmptyFields(f);
    if |missing| > 0 then MissingRequired
    else if f.paymentMethod == CreditCard && (f.cardNumber == "" || f.cardExpiry == "" || f.cardCvc == "") then MissingCardDetails
    else Placed(orderId)
  }

  /** The card fields are never looked at unless paying by card: two forms that differ
      only in them get the same verdict. */
  lemma CardFieldsIgnoredForOtherMethods(f: CheckoutForm, number: string, expiry: string, cvc: string, orderId: string)
    requires f.paymentMethod != CreditCard
    ensures Submit(f.(cardNumber := number, cardExpiry := expiry, cardCvc := cvc), orderId) == Submit(f, orderId)
  {
  }

  /** `handleSubmit` on the cart: only a placed order clears the cart (every rejection
      returns before `clearCart`). */
  function CartAfterSubmit<Item>(cart: seq<Item>, f: CheckoutForm, orderId: string): (r: seq<Item>)
    ensures Submit(f, orderId).Placed? ==> r == []
    ensures !Submit(f, orderId).Placed? ==> r == cart
  {
    if Submit(f, orderId).Placed? then [] else cart
  }

  /** What the page does on render. */
  datatype View = RedirectToCart | ShowCheckout

  /** An empty cart sends the shopper back to the cart page. */
  function Render<Item>(cart: seq<Item>): (v: View)
    ensures v == RedirectToCart <==> cart == []
  {
    if |cart| == 0 then RedirectToCart else ShowCheckout
  }
}
