/** `ORDER_STATUS` of lib/constants.ts: the four known order statuses, in declaration order,
    with their display labels. */
module OrderStatus {
  import opened Wrappers

  const Keys: seq<string> := ["delivered", "pending", "processing", "cancelled"]

  /** `ORDER_STATUS[status]?.label`. */
  function Label(status: string): (r: Option<string>)
    ensures r.Some? <==> status in Keys
  {
    if status == "delivered" then Some("Livrée")
    else if status == "pending" then Some("En attente")
    else if status == "processing" then Some("Traitement")
    else if status == "cancelled" then Some("Annulée")
    else None
  }

  /** The keys are pairwise distinct, so `Object.entries(ORDER_STATUS)` lists four statuses. */
  lemma KeysDistinct()
    ensures |Keys| == 4
    ensures forall i, j :: 0 <= i < j < |Keys| ==> Keys[i] != Keys[j]
  {
  }
}
