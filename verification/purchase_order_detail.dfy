/** The purchase-order page of the client: which status buttons it offers,
    the badge beside the title, and the line totals. The page reads the
    status as the text the server sent. */
module PurchaseOrderDetail {
  import opened Wrappers
  import opened Numerals
  import opened PurchaseOrders

  /** The badge variants the page uses. */
  datatype Badge = SuccessBadge | PrimaryBadge | DefaultBadge

  /** The badge for a status: success when confirmed, primary when sent,
      the default for anything else. */
  function BadgeFor(status: string): (b: Badge)
    ensures b == SuccessBadge <==> status == "confirmed"
    ensures b == PrimaryBadge <==> status == "sent"
  {
    if status == "confirmed" then SuccessBadge
    else if status == "sent" then PrimaryBadge
    else DefaultBadge
  }

  /** The status each offered button asks for, in display order: "Mark as
      sent" from a draft, and "Mark as confirmed" from a draft or a sent
      order; nothing otherwise. */
  function Actions(status: string): (r: seq<Status>)
    ensures Sent in r <==> status == "draft"
    ensures Confirmed in r <==> status == "draft" || status == "sent"
    ensures Draft !in r
    ensures r == [] <==> status != "draft" && status != "sent"
  {
    if status == "draft" then [Sent, Confirmed]
    else if status == "sent" then [Confirmed]
    else []
  }

  /** The position of a status in the draft, sent, confirmed lifecycle. */
  function Stage(s: Status): nat {
    match s
    case Draft => 0
    case Sent => 1
    case Confirmed => 2
  }

  /** The buttons only move an order forward, each asks for a status the
      server accepts, and a confirmed order, the last stage, offers none. */
  lemma ActionsMoveForward(s: Status, t: Status)
    requires t in Actions(StatusName(s))
    ensures Stage(s) < Stage(t)
    ensures ParseStatus(Some(StatusName(t))) == Some(t)
  {
    StatusNameRoundTrip(t, t);
  }

  /** For a status the server stores, the badge stays the default exactly
      while the order can still be marked as sent. */
  lemma BadgeMatchesActions(s: Status)
    ensures BadgeFor(StatusName(s)) == DefaultBadge <==> Sent in Actions(StatusName(s))
    ensures BadgeFor(StatusName(s)) == SuccessBadge <==> Actions(StatusName(s)) == []
  {
  }

  /** The "Total" cell of a line: the quantity times the unit price, with a
      dollar sign and two decimals. */
  function RowTotalText(quantity: real, unitPrice: real): (r: string)
    ensures |r| >= 5 && r[0] == '$'
    ensures ParseFixed2(r[1..]) == Cents(quantity * unitPrice)
    ensures r[1] == '-' <==> quantity * unitPrice < 0.0
  {
    ToFixed2RoundTrip(quantity * unitPrice);
    var f := ToFixed2(quantity * unitPrice);
    assert ("$" + f)[1..] == f;
    "$" + f
  }
}
