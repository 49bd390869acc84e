/** The transaction record (backend/models/Transaction.js) and the sums
    over a ledger of such records. */
module TransactionModel {
  import opened Common
  import opened ProductModel

  /** The `enum: ['sale', 'restock']` of `transactionType`. */
  datatype Kind = Sale | Restock

  function KindName(k: Kind): (s: string)
    ensures s == "sale" || s == "restock"
  {
    match k
    case Sale => "sale"
    case Restock => "restock"
  }

  /** The strict comparisons `transactionType === 'sale'` and `=== 'restock'`. */
  function ParseKind(s: string): (r: Option<Kind>)
    ensures r.Some? <==> s == "sale" || s == "restock"
    ensures r.Some? ==> KindName(r.value) == s
  {
    if s == "sale" then Some(Sale)
    else if s == "restock" then Some(Restock)
    else None
  }

  lemma ParseKindName(k: Kind)
    ensures ParseKind(KindName(k)) == Some(k)
  {
  }

  /** A ledger entry. The required product reference and price snapshot are
      always present in this type; `transactionDate` is the clock reading
      taken when the record was built. */
  datatype TransactionRecord = TransactionRecord(
    product: ProductId,
    kind: Kind,
    quantityChange: int,
    unitPriceAtTransaction: real,
    transactionDate: int)

  /** The schema's validators: `quantityChange` is at least 1 (the kind is
      a Kind by construction and the required fields are never absent). */
  predicate ValidRecord(t: TransactionRecord) {
    t.quantityChange >= 1
  }

  /** Records appear in the order the clock read them: each record is
      dated no earlier than the one before it. */
  predicate DatesAscending(ts: seq<TransactionRecord>) {
    |ts| <= 1 ||
    (DatesAscending(ts[..|ts| - 1]) && ts[|ts| - 2].transactionDate <= ts[|ts| - 1].transactionDate)
  }

  /** In a ledger in clock order, every record is dated no earlier than
      every record before it. */
  lemma {:induction false} DatesAscendingPairwise(ts: seq<TransactionRecord>)
    requires DatesAscending(ts)
    ensures forall i, j :: 0 <= i < j < |ts| ==> ts[i].transactionDate <= ts[j].transactionDate
  {
    if |ts| > 1 {
      var init := ts[..|ts| - 1];
      DatesAscendingPairwise(init);
      forall i, j | 0 <= i < j < |ts| ensures ts[i].transactionDate <= ts[j].transactionDate {
        assert ts[i] == init[i];
        if j < |ts| - 1 {
          assert ts[j] == init[j];
        } else if i < |ts| - 2 {
          assert init[i].transactionDate <= init[|ts| - 2].transactionDate;
        }
      }
    }
  }

  /** The total quantity restocked for product `id` in `ts`. */
  function Restocked(ts: seq<TransactionRecord>, id: ProductId): int {
    if ts == [] then 0
    else (if ts[0].product == id && ts[0].kind == Restock then ts[0].quantityChange else 0)
         + Restocked(ts[1..], id)
  }

  /** The total quantity sold of product `id` in `ts`. */
  function Sold(ts: seq<TransactionRecord>, id: ProductId): int {
    if ts == [] then 0
    else (if ts[0].product == id && ts[0].kind == Sale then ts[0].quantityChange else 0)
         + Sold(ts[1..], id)
  }

  /** The effect of one record on the stock of product `id`. */
  function Delta(t: TransactionRecord, id: ProductId): int {
    if t.product != id then 0
    else if t.kind == Restock then t.quantityChange
    else -t.quantityChange
  }

  /** Appending one record adds exactly its own quantity to the matching
      total of its own product, and nothing to any other. */
  lemma {:induction false} TotalsAppend(ts: seq<TransactionRecord>, t: TransactionRecord, id: ProductId)
    ensures Restocked(ts + [t], id) - Sold(ts + [t], id) == Restocked(ts, id) - Sold(ts, id) + Delta(t, id)
  {
    if ts == [] {
      assert [t][1..] == [];
    } else {
      assert (ts + [t])[1..] == ts[1..] + [t];
      TotalsAppend(ts[1..], t, id);
    }
  }

  /** A product no record refers to has nothing restocked and nothing sold. */
  lemma {:induction false} TotalsOfAbsent(ts: seq<TransactionRecord>, id: ProductId)
    requires forall i :: 0 <= i < |ts| ==> ts[i].product < id
    ensures Restocked(ts, id) == 0 && Sold(ts, id) == 0
  {
    if ts != [] {
      assert ts[0].product < id;
      TotalsOfAbsent(ts[1..], id);
    }
  }

  /** Valid records only add to the totals. */
  lemma {:induction false} TotalsNonNegative(ts: seq<TransactionRecord>, id: ProductId)
    requires forall i :: 0 <= i < |ts| ==> ValidRecord(ts[i])
    ensures Restocked(ts, id) >= 0 && Sold(ts, id) >= 0
  {
    if ts != [] {
      assert ValidRecord(ts[0]);
      TotalsNonNegative(ts[1..], id);
    }
  }
}
