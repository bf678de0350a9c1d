/** The user's dashboard (src/pages/Dashboard.tsx): which rows it lists,
    the three summary figures, the status classifier behind the icon and
    the badge, and what each card shows. */
module Dashboard {
  import opened JsValues
  import opened Tables

  /** The purchases of `user`, in table order: each of that user's rows as
      often as the table holds it, and no other row. */
  function UserPurchases(rows: seq<Purchase>, user: string): (r: seq<Purchase>)
    ensures |r| <= |rows|
    ensures forall k :: 0 <= k < |r| ==> r[k].userId == user && r[k] in rows
    ensures forall p :: p in rows && p.userId == user ==> p in r
    ensures forall p :: multiset(r)[p] == if p.userId == user then multiset(rows)[p] else 0
  {
    if |rows| == 0 then []
    else
      var rest := UserPurchases(rows[..|rows| - 1], user);
      assert rows == rows[..|rows| - 1] + [rows[|rows| - 1]];
      if rows[|rows| - 1].userId == user then rest + [rows[|rows| - 1]] else rest
  }

  /** What the page renders: the loading text (no user, so no fetch), or
      the list it holds. A failed query leaves the initial empty list and
      adds an error toast. */
  datatype DashboardState = Loading | Shown(purchases: seq<Purchase>, errorToast: bool)

  function Load(db: Db, user: Option<string>, queryFails: bool): DashboardState {
    if user.None? then Loading
    else if queryFails then Shown([], true)
    else Shown(UserPurchases(db.purchases, user.value), false)
  }

  /** `purchases.reduce((sum, p) => sum + p.positions_purchased, 0)` */
  function PositionsTotal(rows: seq<Purchase>): real {
    if |rows| == 0 then 0.0 else PositionsTotal(rows[..|rows| - 1]) + rows[|rows| - 1].positionsPurchased
  }

  /** `purchases.reduce((sum, p) => sum + p.total_amount, 0)` */
  function InvestedTotal(rows: seq<Purchase>): real {
    if |rows| == 0 then 0.0 else InvestedTotal(rows[..|rows| - 1]) + rows[|rows| - 1].totalAmount
  }

  /** The three summary cards. */
  datatype Summary = Summary(purchases: nat, positions: real, invested: real)

  function Summarize(rows: seq<Purchase>): Summary {
    Summary(|rows|, PositionsTotal(rows), InvestedTotal(rows))
  }

  /** The three `switch` arms of `getStatusIcon` and `getStatusColor`, and
      their `default`. */
  datatype StatusClass = CompletedClass | PendingClass | FailedClass | OtherClass

  function Classify(status: string): (r: StatusClass)
    ensures r == CompletedClass <==> status == Completed
    ensures r == PendingClass <==> status == Pending
    ensures r == FailedClass <==> status == Failed
  {
    if status == "completed" then CompletedClass
    else if status == "pending" then PendingClass
    else if status == "failed" then FailedClass
    else OtherClass
  }

  datatype Icon = CheckCircle | Clock | XCircle

  /** `getStatusIcon`: the icon and its colour class. */
  function StatusIcon(status: string): (Icon, string) {
    match Classify(status)
    case CompletedClass => (CheckCircle, "text-green-500")
    case PendingClass => (Clock, "text-yellow-500")
    case FailedClass => (XCircle, "text-red-500")
    case OtherClass => (Clock, "text-gray-500")
  }

  /** `getStatusColor`: the badge's classes. */
  function StatusColor(status: string): string {
    match Classify(status)
    case CompletedClass => "bg-green-100 text-green-800"
    case PendingClass => "bg-yellow-100 text-yellow-800"
    case FailedClass => "bg-red-100 text-red-800"
    case OtherClass => "bg-gray-100 text-gray-800"
  }

  /** The list area: the "No Purchases Yet" card, or one card per row. */
  datatype ListView = EmptyState | Cards(cards: seq<Card>)

  /** A card: the status text with its icon and badge, positions, amount
      and, when `payment_id` is truthy, the payment-id line. */
  datatype Card = Card(status: string, icon: (Icon, string), badge: string, positions: real, amount: real,
                       paymentIdLine: Option<JsValue>)

  function CardFor(p: Purchase): Card {
    Card(p.paymentStatus, StatusIcon(p.paymentStatus), StatusColor(p.paymentStatus),
         p.positionsPurchased, p.totalAmount,
         if Truthy(p.paymentId) then Some(p.paymentId) else None)
  }

  function ListFor(rows: seq<Purchase>): (r: ListView)
    ensures r.Cards? ==> |r.cards| == |rows|
  {
    if |rows| == 0 then EmptyState else Cards(seq(|rows|, i requires 0 <= i < |rows| => CardFor(rows[i])))
  }

  // ---------------------------------------------------------------------
  // Properties

  /** The totals of a concatenation are the sums of the totals: the
      reductions add each row exactly once. */
  lemma {:induction false} TotalsAppend(a: seq<Purchase>, b: seq<Purchase>)
    ensures PositionsTotal(a + b) == PositionsTotal(a) + PositionsTotal(b)
    ensures InvestedTotal(a + b) == InvestedTotal(a) + InvestedTotal(b)
  {
    if |b| > 0 {
      assert (a + b)[..|a + b| - 1] == a + b[..|b| - 1];
      TotalsAppend(a, b[..|b| - 1]);
    } else {
      assert a + b == a;
    }
  }

  /** An empty list sums to 0; one row sums to its own values. */
  lemma TotalsBase(p: Purchase)
    ensures Summarize([]) == Summary(0, 0.0, 0.0)
    ensures Summarize([p]) == Summary(1, p.positionsPurchased, p.totalAmount)
  {
    assert [p][..0] == [];
  }

  /** When every row was priced at `price` per position (as every writer of
      the table does), the amount invested is that price times the
      positions held. */
  lemma {:induction false} InvestedIsPriceTimesPositions(rows: seq<Purchase>, price: real)
    requires forall k :: 0 <= k < |rows| ==> rows[k].totalAmount == price * rows[k].positionsPurchased
    ensures InvestedTotal(rows) == price * PositionsTotal(rows)
  {
    if |rows| > 0 {
      InvestedIsPriceTimesPositions(rows[..|rows| - 1], price);
    }
  }

  /** With no negative counts the positions total is at least each row's. */
  lemma {:induction false} PositionsBound(rows: seq<Purchase>, k: nat)
    requires forall j :: 0 <= j < |rows| ==> rows[j].positionsPurchased >= 0.0
    requires k < |rows|
    ensures PositionsTotal(rows) >= rows[k].positionsPurchased
    ensures PositionsTotal(rows) >= 0.0
  {
    if k < |rows| - 1 {
      PositionsBound(rows[..|rows| - 1], k);
    } else if |rows| > 1 {
      PositionsBound(rows[..|rows| - 1], 0);
    }
  }

  /** The classifier recognises exactly `completed`, `pending` and
      `failed`; every other word, the callbacks' `success` included, gets
      the grey clock. */
  lemma ClassifierExact(status: string)
    ensures Classify(status) == OtherClass <==> status !in {Completed, Pending, Failed}
    ensures Classify(status) == OtherClass ==>
      StatusIcon(status) == (Clock, "text-gray-500") && StatusColor(status) == "bg-gray-100 text-gray-800"
    ensures Classify(Success) == OtherClass
  {
  }

  /** Icon and badge always agree on the class: green for completed, yellow
      for pending, red for failed, grey otherwise. */
  lemma IconAndBadgeAgree(status: string)
    ensures StatusIcon(status).1 == "text-green-500" <==> StatusColor(status) == "bg-green-100 text-green-800"
    ensures StatusIcon(status).1 == "text-red-500" <==> StatusColor(status) == "bg-red-100 text-red-800"
  {
  }

  /** The empty state is shown exactly when there are no rows. */
  lemma EmptyStateIffNoRows(rows: seq<Purchase>)
    ensures ListFor(rows) == EmptyState <==> |rows| == 0
  {
  }

  /** Each card shows its row's status, and the payment-id line exactly
      when the payment id is truthy. */
  lemma CardShowsRow(rows: seq<Purchase>, k: nat)
    requires k < |rows|
    ensures var c := ListFor(rows).cards[k];
      && c.status == rows[k].paymentStatus
      && (c.paymentIdLine.Some? <==> Truthy(rows[k].paymentId))
      && (c.paymentIdLine.Some? ==> c.paymentIdLine.value == rows[k].paymentId)
  {
  }

  /** A failed query renders as an empty dashboard with an error toast. */
  lemma QueryErrorLooksEmpty(db: Db, user: string)
    ensures var s := Load(db, Some(user), true);
      s.Shown? && s.errorToast && Summarize(s.purchases) == Summary(0, 0.0, 0.0) && ListFor(s.purchases) == EmptyState
  {
  }

  /** A user's newly appended purchase is added to that user's totals. */
  lemma NewRowCounted(db: Db, p: Purchase)
    ensures var before := UserPurchases(db.purchases, p.userId);
      var after := UserPurchases(db.purchases + [p], p.userId);
      Summarize(after) == Summary(|before| + 1, PositionsTotal(before) + p.positionsPurchased, InvestedTotal(before) + p.totalAmount)
  {
    assert (db.purchases + [p])[..|db.purchases|] == db.purchases;
  }
}
