/** The checkout page's submit handler: the form is validated by the checkout
    schema, an empty cart is refused, and otherwise the order message is built
    line by line, sent through a WhatsApp link, and the cart is cleared. */
module Checkout {
  import opened Wrappers
  import opened Strings
  import opened Schema
  import Cart
  import CartContext
  import WhatsApp

  /** `paymentLabels`: what the message shows for each payment method, a
      non-empty word on the payment line. */
  function PaymentLabel(m: PaymentMethod): (shown: string)
    ensures shown != "" && '\n' !in shown
  {
    match m
    case Debit => "Débito"
    case Credit => "Crédito"
    case Cash => "Dinheiro"
    case Pix => "PIX"
  }

  /** Different methods get different labels, so the message names the chosen one. */
  lemma PaymentLabelsDistinct(m: PaymentMethod, n: PaymentMethod)
    requires PaymentLabel(m) == PaymentLabel(n)
    ensures m == n
  {
    assert PaymentLabel(m)[0] == PaymentLabel(n)[0];
    assert |PaymentLabel(m)| == |PaymentLabel(n)|;
  }

  const Header: string := "*Nova Comanda - Pedido*\n\n"
  const CustomerLabel: string := "*Cliente:* "
  const CityLabel: string := "*Cidade:* "
  const PaymentHeading: string := "*Pagamento:* "
  const ItemsHeading: string := "*Itens do Pedido:*\n"

  /** Everything before the first item: the header, then the customer's name,
      the city and the payment label each after its own label and each on its
      own line, then the items heading. */
  function Preamble(data: CheckoutData): (p: string)
    ensures var shown := PaymentLabel(data.paymentMethod);
            var nameAt := |Header| + |CustomerLabel|;
            var cityAt := nameAt + |data.name| + 1 + |CityLabel|;
            var paymentAt := cityAt + |data.city| + 1 + |PaymentHeading|;
            && |p| == paymentAt + |shown| + 2 + |ItemsHeading|
            && p[..|Header|] == Header
            && p[nameAt..nameAt + |data.name|] == data.name
            && p[cityAt..cityAt + |data.city|] == data.city
            && p[paymentAt..paymentAt + |shown|] == shown
            && p[|p| - |ItemsHeading|..] == ItemsHeading
  {
    Header
    + (CustomerLabel + data.name + "\n")
    + (CityLabel + data.city + "\n")
    + (PaymentHeading + PaymentLabel(data.paymentMethod) + "\n\n")
    + ItemsHeading
  }

  const QuantityLabel: string := "   Quantidade: "
  const PriceLabel: string := "   Valor: R$ "
  const PriceEnding: string := "/mês\n"

  /** The three lines an item contributes: its number (from 1) and title, its
      quantity, and its unit price with two decimals. */
  function TitleLine(index: nat, item: CartItem): string
  {
    "\n" + NatToString(index + 1) + ". " + item.title + "\n"
  }

  function QuantityLine(item: CartItem): string
  {
    QuantityLabel + IntToString(item.quantity) + "x\n"
  }

  function PriceLine(item: CartItem): string
  {
    PriceLabel + FormatCents(item.monthlyPrice) + PriceEnding
  }

  /** The text the item at position `index` contributes: it starts a new line
      with the number index + 1 and ends with a line break. */
  function ItemLine(index: nat, item: CartItem): (l: string)
    ensures var number := NatToString(index + 1);
            && |number| + 2 <= |l|
            && l[0] == '\n' && l[1..1 + |number|] == number && l[|l| - 1] == '\n'
  {
    TitleLine(index, item) + QuantityLine(item) + PriceLine(item)
  }

  /** Where an item's fields sit in its lines: the title after the number and
      `. `, the quantity after its label, the unit price after its label; the
      price printed there reads back as the item's price in cents. */
  lemma ItemLineFields(index: nat, item: CartItem)
    ensures var l := ItemLine(index, item);
            var number := NatToString(index + 1);
            var quantity := IntToString(item.quantity);
            var price := FormatCents(item.monthlyPrice);
            var titleAt := 3 + |number|;
            var quantityAt := titleAt + |item.title| + 1 + |QuantityLabel|;
            var priceAt := quantityAt + |quantity| + 2 + |PriceLabel|;
            && |l| == priceAt + |price| + |PriceEnding|
            && l[titleAt..titleAt + |item.title|] == item.title
            && l[quantityAt..quantityAt + |quantity|] == quantity
            && l[priceAt..priceAt + |price|] == price
            && ParseCents(l[priceAt..priceAt + |price|]) == Some(item.monthlyPrice)
  {
    var t, q, r := TitleLine(index, item), QuantityLine(item), PriceLine(item);
    TitleAt(index, item, q + r);
    var price := FormatCents(item.monthlyPrice);
    FieldAt(QuantityLabel, IntToString(item.quantity), "x\n");
    FieldAt(PriceLabel, price, PriceEnding);
    SecondAt(t, q, r, |QuantityLabel|, |QuantityLabel| + |IntToString(item.quantity)|);
    TailSlice(t + q, r, |PriceLabel|, |PriceLabel| + |price|);
    FormatCentsRoundTrip(item.monthlyPrice);
  }

  /** The title of an item sits after its number and `. `, whatever follows the title line. */
  lemma TitleAt(index: nat, item: CartItem, rest: string)
    ensures var number := NatToString(index + 1);
            var titleAt := 3 + |number|;
            (TitleLine(index, item) + rest)[titleAt..titleAt + |item.title|] == item.title
  {
    var number := NatToString(index + 1);
    FieldAt("\n" + number + ". ", item.title, "\n");
    KeptInHead(TitleLine(index, item), rest, 3 + |number|, 3 + |number| + |item.title|);
  }

  /** A slice of the middle part of three is that slice of the middle part. */
  lemma SecondAt(a: string, b: string, c: string, i: nat, j: nat)
    requires i <= j <= |b|
    ensures (a + b + c)[|a| + i..|a| + j] == b[i..j]
  {
    TailSlice(a, b, i, j);
    KeptInHead(a + b, c, |a| + i, |a| + j);
  }

  /** A field between a lead and an ending sits right after the lead. */
  lemma FieldAt(lead: string, field: string, ending: string)
    ensures (lead + field + ending)[|lead|..|lead| + |field|] == field
  {
  }

  /** A slice inside the first part of a concatenation is that slice of the first part. */
  lemma KeptInHead(a: string, b: string, i: nat, j: nat)
    requires i <= j <= |a|
    ensures (a + b)[i..j] == a[i..j]
  {
  }

  /** The lines `items.forEach` appends, in order: the one for position k is
      `line(first + k, items[k])`. */
  function ItemLines(line: (nat, CartItem) -> string, items: seq<CartItem>, first: nat): (r: string)
    ensures items == [] ==> r == ""
    ensures |items| == 1 ==> r == line(first, items[0])
    decreases |items|
  {
    if items == [] then ""
    else
      assert |items| == 1 ==> items[..0] == [];
      ItemLines(line, items[..|items| - 1], first) + line(first + |items| - 1, items[|items| - 1])
  }

  const TotalLabel: string := "\n*Total: R$ "

  /** The total line: its label, the amount with two decimals, and a closing
      `*`; the amount between them reads back as the total in cents. */
  function TotalLine(total: int): (t: string)
    ensures |TotalLabel| + 1 <= |t| && t[..|TotalLabel|] == TotalLabel && t[|t| - 1] == '*'
    ensures ParseCents(t[|TotalLabel|..|t| - 1]) == Some(total)
  {
    FormatCentsRoundTrip(total);
    var t := TotalLabel + FormatCents(total) + "*";
    assert t[|TotalLabel|..|t| - 1] == FormatCents(total);
    t
  }

  /** The trailing observation section: only for an observation that is
      present and not empty, and then it ends with the observation as typed. */
  function ObservationSection(observation: Option<string>): (o: string)
    ensures o == "" <==> observation.None? || observation.value == ""
    ensures o != "" ==> |observation.value| < |o| && o[|o| - |observation.value|..] == observation.value
  {
    match observation
    case Some(o) => if o != "" then "\n\n*Observações:*\n" + o else ""
    case None => ""
  }

  /** Everything up to and including the total line. */
  function OrderBody(data: CheckoutData, items: seq<CartItem>, total: int): string
  {
    Preamble(data) + ItemLines(ItemLine, items, 0) + TotalLine(total)
  }

  /** The whole order message for a validated form, the cart's lines and its
      total in cents. It opens with the header and holds the preamble and the
      total line at least. */
  function OrderMessage(data: CheckoutData, items: seq<CartItem>, total: int): (m: string)
    ensures |Preamble(data)| + |TotalLine(total)| <= |m|
    ensures m[..|Header|] == Header
  {
    var p := Preamble(data);
    var lines := ItemLines(ItemLine, items, 0);
    PrefixKept(p, lines, |Header|);
    PrefixKept(p + lines, TotalLine(total), |Header|);
    PrefixKept(OrderBody(data, items, total), ObservationSection(data.observation), |Header|);
    OrderBody(data, items, total) + ObservationSection(data.observation)
  }

  /** A prefix of the first part is a prefix of the concatenation. */
  lemma PrefixKept(a: string, b: string, n: nat)
    requires n <= |a|
    ensures (a + b)[..n] == a[..n]
  {
  }

  /** The item lines of two consecutive runs of lines, numbered on from the first. */
  lemma {:induction false} ItemLinesAppend(line: (nat, CartItem) -> string, a: seq<CartItem>, b: seq<CartItem>, first: nat)
    ensures ItemLines(line, a + b, first) == ItemLines(line, a, first) + ItemLines(line, b, first + |a|)
    decreases |b|
  {
    if b == [] {
      assert a + b == a;
    } else {
      var b' := b[..|b| - 1];
      ItemLinesAppend(line, a, b', first);
      assert (a + b)[..|a + b| - 1] == a + b';
    }
  }

  /** The line of an item that `before` precedes and `after` follows is numbered
      |before| + 1, after the lines of `before` and before those of `after`: the
      message lists the cart in its order. */
  lemma ItemLineAt(line: (nat, CartItem) -> string, before: seq<CartItem>, x: CartItem, after: seq<CartItem>)
    ensures ItemLines(line, before + [x] + after, 0)
         == ItemLines(line, before, 0) + line(|before|, x) + ItemLines(line, after, |before| + 1)
  {
    ItemLinesAppend(line, before + [x], after, 0);
    ItemLinesAppend(line, before, [x], 0);
  }

  lemma Associative(a: string, b: string, c: string)
    ensures (a + b) + c == a + (b + c)
  {
  }

  /** The `forEach` callback: the three templates it appends for one item. */
  method AppendItem(message: string, item: CartItem, index: nat) returns (extended: string)
    ensures extended == message + ItemLine(index, item)
  {
    extended := message + ("\n" + NatToString(index + 1) + ". " + item.title + "\n");
    extended := extended + ("   Quantidade: " + IntToString(item.quantity) + "x\n");
    extended := extended + ("   Valor: R$ " + FormatCents(item.monthlyPrice) + "/mês\n");
    var title, quantity, price := TitleLine(index, item), QuantityLine(item), PriceLine(item);
    Associative(message, title, quantity);
    Associative(message, title + quantity, price);
  }

  /** The first five statements of the message: header, customer, city, payment, items heading. */
  method BeginMessage(data: CheckoutData) returns (message: string)
    ensures message == Preamble(data)
  {
    message := Header;
    message := message + ("*Cliente:* " + data.name + "\n");
    message := message + ("*Cidade:* " + data.city + "\n");
    message := message + ("*Pagamento:* " + PaymentLabel(data.paymentMethod) + "\n\n");
    message := message + "*Itens do Pedido:*\n";
  }

  /** `onSubmit`'s message building: each `+=` of a template appends one piece. */
  method BuildMessage(data: CheckoutData, items: seq<CartItem>, totalPrice: int) returns (message: string)
    ensures message == OrderMessage(data, items, totalPrice)
  {
    message := BeginMessage(data);
    message := AppendItems(message, items);
    message := message + ("\n*Total: R$ " + FormatCents(totalPrice) + "*");
    ghost var body := message;
    assert body == OrderBody(data, items, totalPrice) by {
      assert TotalLine(totalPrice) == TotalLabel + FormatCents(totalPrice) + "*";
    }
    if data.observation.Some? && data.observation.value != "" {
      message := message + ("\n\n*Observações:*\n" + data.observation.value);
    } else {
      assert message + "" == message;
    }
    assert message == body + ObservationSection(data.observation);
  }

  /** The `forEach` over the cart: the lines of every item, in order, appended to the message so far. */
  method AppendItems(preamble: string, items: seq<CartItem>) returns (message: string)
    ensures message == preamble + ItemLines(ItemLine, items, 0)
  {
    message := preamble;
    var i := 0;
    while i < |items|
      invariant 0 <= i <= |items|
      invariant message == preamble + ItemLines(ItemLine, items[..i], 0)
    {
      ItemLinesPrefix(ItemLine, items, i);
      Associative(preamble, ItemLines(ItemLine, items[..i], 0), ItemLine(i, items[i]));
      message := AppendItem(message, items[i], i);
      i := i + 1;
    }
    assert items[..|items|] == items;
  }

  /** The lines of the first i + 1 items are those of the first i, then the line of item i. */
  lemma ItemLinesPrefix(line: (nat, CartItem) -> string, items: seq<CartItem>, i: nat)
    requires i < |items|
    ensures ItemLines(line, items[..i + 1], 0) == ItemLines(line, items[..i], 0) + line(i, items[i])
  {
    assert items[..i + 1][..i] == items[..i];
  }

  /** The message is the part that does not depend on the observation, then the observation section. */
  lemma ObservationSplit(data: CheckoutData, items: seq<CartItem>, total: int)
    ensures OrderMessage(data, items, total)
         == OrderMessage(data.(observation := None), items, total) + ObservationSection(data.observation)
  {
    var plain := data.(observation := None);
    assert Preamble(plain) == Preamble(data);
    var body := OrderBody(data, items, total);
    assert OrderBody(plain, items, total) == body;
    assert body + "" == body;
    assert OrderMessage(plain, items, total) == body;
  }

  /** A present, non-empty observation is appended, with its heading, after
      everything else; an empty one adds nothing, exactly like a missing one. */
  lemma ObservationAtEnd(data: CheckoutData, items: seq<CartItem>, total: int)
    ensures data.observation.Some? && data.observation.value != "" ==>
      OrderMessage(data, items, total)
      == OrderMessage(data.(observation := None), items, total) + "\n\n*Observações:*\n" + data.observation.value
    ensures data.observation == Some("") ==>
      OrderMessage(data, items, total) == OrderMessage(data.(observation := None), items, total)
  {
    ObservationSplit(data, items, total);
    var plain := OrderMessage(data.(observation := None), items, total);
    if data.observation.Some? && data.observation.value != "" {
      Associative(plain, "\n\n*Observações:*\n", data.observation.value);
    } else if data.observation == Some("") {
      assert plain + "" == plain;
    }
  }

  /** Without an observation the message ends with the total line, whose
      amount reads back as the total in cents (`TotalLine`). */
  lemma TotalAtEnd(data: CheckoutData, items: seq<CartItem>, total: int)
    requires data.observation.None? || data.observation == Some("")
    ensures var m := OrderMessage(data, items, total);
            var t := TotalLine(total);
            |t| <= |m| && m[|m| - |t|..] == t
  {
    var head := Preamble(data) + ItemLines(ItemLine, items, 0);
    PlainMessage(data, items, total);
    TailSlice(head, TotalLine(total), 0, |TotalLine(total)|);
  }

  /** Without an observation the message is the preamble, the item lines and the total line. */
  lemma PlainMessage(data: CheckoutData, items: seq<CartItem>, total: int)
    requires data.observation.None? || data.observation == Some("")
    ensures OrderMessage(data, items, total) == Preamble(data) + ItemLines(ItemLine, items, 0) + TotalLine(total)
  {
    assert ObservationSection(data.observation) == "";
    assert OrderBody(data, items, total) + "" == OrderBody(data, items, total);
  }

  /** A slice of the tail of a concatenation, measured from where the tail starts. */
  lemma TailSlice(head: string, t: string, i: nat, j: nat)
    requires i <= j <= |t|
    ensures (head + t)[|head| + i..|head| + j] == t[i..j]
  {
  }

  /** Two lines, 29.90 twice and 15.00 once: three items, 74.80 in total. */
  lemma TwoLineOrder()
    ensures var items := [CartItem("a", "A", "", 2990, 2), CartItem("b", "B", "", 1500, 1)];
            && Cart.TotalItems(items) == 3
            && Cart.TotalPrice(items) == 7480
            && TotalLine(Cart.TotalPrice(items)) == "\n*Total: R$ 74.80*"
  {
    var items := [CartItem("a", "A", "", 2990, 2), CartItem("b", "B", "", 1500, 1)];
    assert items[..1] == [items[0]];
    assert items[..1][..0] == [];
    assert NatToString(74) == "74" by {
      assert NatToString(7) == "7";
    }
  }

  /** What submitting the checkout form leads to. */
  datatype SubmitOutcome =
    | Rejected(issues: seq<Issue>)   // the schema refused the form; `onSubmit` is not reached
    | EmptyCart                      // the empty-cart guard
    | Dispatched(url: string)        // the WhatsApp link opened

  /** The form's submit: `checkoutSchema` first, then `onSubmit`. A dispatched
      order carries the message for the cart as it was, and leaves the cart
      empty; every other outcome leaves the cart alone. */
  method Submit(cart: CartContext.CartProvider, form: CheckoutForm, whatsappNumber: Option<string>)
    returns (outcome: SubmitOutcome)
    modifies cart
    ensures ValidateCheckout(form).Failure? ==> outcome == Rejected(ValidateCheckout(form).error)
    ensures ValidateCheckout(form).Success? && old(cart.items) == [] ==> outcome == EmptyCart
    ensures ValidateCheckout(form).Success? && old(cart.items) != [] ==>
      outcome == Dispatched(WhatsApp.Url(WhatsApp.Phone(whatsappNumber),
        OrderMessage(ValidateCheckout(form).value, old(cart.items), Cart.TotalPrice(old(cart.items)))))
    ensures outcome.Dispatched? && '?' !in WhatsApp.Phone(whatsappNumber) && '#' !in WhatsApp.Phone(whatsappNumber) ==>
      WhatsApp.TextParameter(outcome.url)
      == Some(OrderMessage(ValidateCheckout(form).value, old(cart.items), Cart.TotalPrice(old(cart.items))))
    ensures outcome.Dispatched? ==> cart.items == [] && cart.stored == Some([])
    ensures !outcome.Dispatched? ==> unchanged(cart)
  {
    var validated := ValidateCheckout(form);
    if validated.Failure? {
      return Rejected(validated.error);
    }
    if |cart.items| == 0 {
      return EmptyCart;
    }
    var message := BuildMessage(validated.value, cart.items, Cart.TotalPrice(cart.items));
    var phone := WhatsApp.Phone(whatsappNumber);
    var url := WhatsApp.Url(phone, message);
    if '?' !in phone && '#' !in phone { WhatsApp.UrlCarriesMessage(phone, message); }
    cart.ClearCart();
    return Dispatched(url);
  }
}
