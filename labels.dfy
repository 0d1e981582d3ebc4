/** The texts an order card and its detail dialog show, as functions of the
    order's fields. */
module Labels {
  import opened Wrappers
  import opened OrderModel
  import Text

  const Concluded: string := "Pedido concluído"
  const Cancelled: string := "Cancelado"
  const InProgress: string := "Em andamento"

  /** The status text: "delivered" and "completed" are both finished,
      "cancelled" is cancelled, and every other value (pending, unknown)
      reads as in progress. */
  function StatusLabel(status: string): (r: string)
    ensures r in {Concluded, Cancelled, InProgress}
    ensures r == Concluded <==> status == "delivered" || status == "completed"
    ensures r == Cancelled <==> status == "cancelled"
    ensures r == InProgress <==> status !in {"delivered", "completed", "cancelled"}
  {
    if status == "delivered" || status == "completed" then Concluded
    else if status == "cancelled" then Cancelled
    else InProgress
  }

  /** The check-mark icon is drawn next to the status text exactly when
      the order is finished. */
  function ShowsCheckIcon(status: string): (b: bool)
    ensures b <==> StatusLabel(status) == Concluded
  {
    status == "delivered" || status == "completed"
  }

  /** The payment text: the four known methods get their Portuguese name,
      any other value is shown as it is. */
  function PaymentLabel(paymentMethod: string): (r: string)
    ensures paymentMethod == "pix" ==> r == "Pix"
    ensures paymentMethod == "credit" ==> r == "Crédito"
    ensures paymentMethod == "debit" ==> r == "Débito"
    ensures paymentMethod == "cash" ==> r == "Dinheiro"
    ensures paymentMethod !in {"pix", "credit", "debit", "cash"} ==> r == paymentMethod
  {
    if paymentMethod == "pix" then "Pix"
    else if paymentMethod == "credit" then "Crédito"
    else if paymentMethod == "debit" then "Débito"
    else if paymentMethod == "cash" then "Dinheiro"
    else paymentMethod
  }

  /** The list preview's count of further items: nothing for zero or one
      item, otherwise " + N itens" with N the number of items after the
      first, written in decimal. */
  function PreviewSuffix(itemCount: nat): (r: string)
    ensures itemCount <= 1 <==> r == ""
    ensures itemCount > 1 ==>
      && |r| > 9
      && r[..3] == " + "
      && r[|r| - 6..] == " itens"
      && (forall i :: 3 <= i < |r| - 6 ==> Text.IsDigit(r[i]))
      && Text.DigitsValue(r[3..|r| - 6]) == itemCount - 1
      && (|r| > 10 ==> r[3] != '0')
  {
    if itemCount <= 1 then ""
    else
      var digits := Text.DecimalString(itemCount - 1);
      Text.DecimalRoundTrip(itemCount - 1);
      var r := " + " + digits + " itens";
      assert r[3..|r| - 6] == digits;
      r
  }

  /** What an order card previews of its items: the first item's quantity,
      name and image (nothing when there are no items), and the suffix. */
  datatype Preview = Preview(
    quantity: Option<int>,
    name: Option<string>,
    image: Option<string>,
    suffix: string)

  function ItemsPreview(items: seq<LineItem>): (p: Preview)
    ensures items == [] ==> p.quantity == None && p.name == None && p.image == None
    ensures items != [] ==> p.quantity == Some(items[0].quantity) && p.name == Some(items[0].productName)
    ensures p.image.Some? <==> items != [] && Truthy(items[0].productImage)
    ensures p.image.Some? ==> Some(p.image.value) == items[0].productImage
    ensures p.suffix == PreviewSuffix(|items|)
  {
    if items == [] then Preview(None, None, None, PreviewSuffix(0))
    else
      var first := items[0];
      Preview(Some(first.quantity), Some(first.productName),
              if Truthy(first.productImage) then first.productImage else None,
              PreviewSuffix(|items|))
  }

  /** The short order number in the dialog: "#" and the first eight
      characters of the id, or the whole id when it is shorter. */
  function ShortId(id: string): (r: string)
    ensures |r| == 1 + (if |id| < 8 then |id| else 8)
    ensures r[0] == '#'
    ensures r[1..] <= id
  {
    "#" + (if |id| < 8 then id else id[..8])
  }

  /** The merchant name on a card, "Restaurante" when the company or its
      name is missing or empty. */
  function CompanyName(company: Option<Company>): (r: string)
    ensures r != ""
    ensures company.Some? && Truthy(company.value.name) ==> r == company.value.name.value
    ensures !(company.Some? && Truthy(company.value.name)) ==> r == "Restaurante"
  {
    if company.Some? && Truthy(company.value.name) then company.value.name.value
    else "Restaurante"
  }

  /** The letter drawn in place of a missing profile image: the name's
      first character, "R" when there is no name. */
  function CompanyInitial(company: Option<Company>): (r: string)
    ensures |r| == 1
    ensures r == CompanyName(company)[..1]
  {
    if company.Some? && Truthy(company.value.name) then company.value.name.value[..1]
    else "R"
  }

  /** The card's avatar: the profile image when there is one, else the initial. */
  datatype Avatar = Photo(src: string) | Initial(letter: string)

  function AvatarOf(company: Option<Company>): (a: Avatar)
    ensures a.Photo? <==> company.Some? && Truthy(company.value.profileImage)
    ensures a.Photo? ==> Some(a.src) == company.value.profileImage
    ensures a.Initial? ==> a.letter == CompanyName(company)[..1]
  {
    if company.Some? && Truthy(company.value.profileImage) then Photo(company.value.profileImage.value)
    else Initial(CompanyInitial(company))
  }
}
