/** The wallet page's per-transaction presentation (pages/WalletPage.tsx):
    the income/expense icon chosen by type, and the sign prefix and
    highlight chosen by amount. */
module Wallet {
  import opened Types

  /** `type === 'deposit' || type === 'sale'`. */
  predicate IsIncome(kind: TransactionType) {
    kind == Deposit || kind == Sale
  }

  datatype IconStyle = IconStyle(icon: string, color: string, bgColor: string)

  /** `TransactionIcon`: income points south-west in the primary colour,
      everything else north-east in the neutral colour. */
  function TransactionIcon(kind: TransactionType): (s: IconStyle)
    ensures s.icon == "south_west" <==> kind.Deposit? || kind.Sale?
    ensures s.icon == "north_east" <==> kind.Withdrawal? || kind.Purchase?
    ensures s.color == "text-primary" <==> s.icon == "south_west"
  {
    if IsIncome(kind) then
      IconStyle("south_west", "text-primary", "bg-primary/20")
    else
      IconStyle("north_east", "text-text-light-primary dark:text-text-dark-primary", "bg-search-light dark:bg-search-dark")
  }

  /** `tx.amount > 0 ? '+' : ''`. */
  function AmountPrefix(amount: real): (p: string)
    ensures p == "+" <==> amount > 0.0
    ensures p == "" <==> amount <= 0.0
  {
    if amount > 0.0 then "+" else ""
  }

  /** The amount's colour class. */
  function AmountColor(amount: real): (c: string)
    ensures c == "text-primary" <==> amount > 0.0
  {
    if amount > 0.0 then "text-primary" else "text-text-light-primary dark:text-text-dark-primary"
  }

  /** The icon follows the type and the highlight follows the amount, with
      no check that they agree: a positive withdrawal is highlighted with an
      expense icon, a negative sale is an income icon without a `+`. */
  lemma IconAndHighlightIndependent()
    ensures AmountColor(25.0) == "text-primary" && TransactionIcon(Withdrawal).icon == "north_east"
    ensures AmountPrefix(-25.0) == "" && TransactionIcon(Sale).icon == "south_west"
  {
  }
}
