/**
 * The status badges of the record pages: a colour per status and the
 * label shown in the badge. Statuses the pages do not know fall through
 * to a gray badge showing the raw value.
 */
module Status {

  datatype Color = Green | Red | Yellow | Gray

  /** The Tailwind classes of a badge colour. */
  function BadgeClass(c: Color): string {
    match c
    case Green => "bg-green-100 text-green-800"
    case Red => "bg-red-100 text-red-800"
    case Yellow => "bg-yellow-100 text-yellow-800"
    case Gray => "bg-gray-100 text-gray-800"
  }

  /** `getStatusBadgeColor` of the vendor and shareholder pages. */
  function ActivityColor(status: string): (c: Color)
    ensures c == Green <==> status == "active"
    ensures c == Red <==> status == "inactive"
    ensures c != Yellow
  {
    if status == "active" then Green else if status == "inactive" then Red else Gray
  }

  /** `getStatusText` of the vendor and shareholder pages. */
  function ActivityText(status: string): (t: string)
    ensures status == "active" ==> t == "فعال"
    ensures status == "inactive" ==> t == "غیرفعال"
    ensures status != "active" && status != "inactive" ==> t == status
  {
    if status == "active" then "فعال" else if status == "inactive" then "غیرفعال" else status
  }

  /** The label is the raw status exactly when the badge is gray, and the
      two known statuses get different labels. */
  lemma ActivityTextRawIffGray(status: string)
    ensures ActivityText(status) == status <==> ActivityColor(status) == Gray
    ensures ActivityText("active") != ActivityText("inactive")
  {
  }

  /** `getStatusBadgeColor` of the receipts page. */
  function ReceiptColor(status: string): (c: Color)
    ensures c == Green <==> status == "completed"
    ensures c == Yellow <==> status == "pending"
    ensures c != Red
  {
    if status == "completed" then Green else if status == "pending" then Yellow else Gray
  }

  /** `getStatusText` of the receipts page. */
  function ReceiptText(status: string): (t: string)
    ensures status == "completed" ==> t == "تکمیل شده"
    ensures status == "pending" ==> t == "در انتظار"
    ensures status != "completed" && status != "pending" ==> t == status
  {
    if status == "completed" then "تکمیل شده" else if status == "pending" then "در انتظار" else status
  }

  lemma ReceiptTextRawIffGray(status: string)
    ensures ReceiptText(status) == status <==> ReceiptColor(status) == Gray
  {
  }

  /** `getPaymentMethodText`: the three known methods get labels; any
      other method is shown as it is. */
  function PaymentMethodText(m: string): (t: string)
    ensures m == "cash" ==> t == "نقدی"
    ensures m == "cheque" ==> t == "چک"
    ensures m == "transfer" ==> t == "انتقال بانکی"
    ensures m !in {"cash", "cheque", "transfer"} ==> t == m
  {
    match m
    case "cash" => "نقدی"
    case "cheque" => "چک"
    case "transfer" => "انتقال بانکی"
    case _ => m
  }

  /** The method's label is the raw method exactly for unknown methods,
      and the three labels differ. */
  lemma PaymentMethodTextRaw(m: string)
    ensures PaymentMethodText(m) == m <==> m !in {"cash", "cheque", "transfer"}
    ensures PaymentMethodText("cash") != PaymentMethodText("cheque")
    ensures PaymentMethodText("cheque") != PaymentMethodText("transfer")
    ensures PaymentMethodText("cash") != PaymentMethodText("transfer")
  {
  }
}
