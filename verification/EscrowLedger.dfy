/** Account balances, transfers between them, and the rule that an account holds nothing or enough. */
module EscrowLedger {
  import opened Prelude

  const MIN_BALANCE := 100_000

  /** Balances in microALGO, indexed by account. */
  type Ledger = seq<nat>

  /** An account keeps either nothing or at least the minimum balance. */
  predicate Holdable(balance: int) {
    balance == 0 || balance >= MIN_BALANCE
  }

  predicate AllHoldable(l: Ledger) {
    forall a :: 0 <= a < |l| ==> Holdable(l[a])
  }

  function Transfer(l: Ledger, from: nat, to: nat, amount: nat): Option<Ledger>
    requires from < |l| && to < |l|
  {
    if l[from] < amount then None
    else
      var debited := l[from := l[from] - amount];
      Some(debited[to := debited[to] + amount])
  }

  function Total(l: Ledger): nat {
    if l == [] then 0 else l[0] + Total(l[1..])
  }

  lemma {:induction false} TotalUpdate(l: Ledger, a: nat, v: nat)
    requires a < |l|
    ensures Total(l[a := v]) == Total(l) - l[a] + v
  {
    if a == 0 {
      assert l[a := v][1..] == l[1..];
    } else {
      assert l[a := v][1..] == l[1..][a - 1 := v];
      TotalUpdate(l[1..], a - 1, v);
    }
  }

  /** A transfer moves money and creates none. */
  lemma TransferConserves(l: Ledger, from: nat, to: nat, amount: nat)
    requires from < |l| && to < |l| && l[from] >= amount
    ensures var r := Transfer(l, from, to, amount);
      && r.Some? && |r.value| == |l|
      && Total(r.value) == Total(l)
      && (from != to ==> r.value[from] == l[from] - amount && r.value[to] == l[to] + amount)
      && (from == to ==> r.value == l)
      && forall a :: 0 <= a < |l| && a != from && a != to ==> r.value[a] == l[a]
  {
    var debited := l[from := l[from] - amount];
    TotalUpdate(l, from, l[from] - amount);
    TotalUpdate(debited, to, debited[to] + amount);
  }
}
