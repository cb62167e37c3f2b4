/**
 The escrow smart contract on its ledger: atomic groups of payments and ARC-4 calls, an inner
 payment on release or refund, a frozen flag, and outside parties who pay the contract account at
 will. Fees move from the sender to the fee sink; one group fee pool covers the inner payment.
 */
module EscrowContract {
  import opened Prelude
  import opened EscrowLedger

  const MIN_FEE := 1000
  const MAX_GROUP := 16

  datatype Status = Deployed | Funded | Released | Refunded

  /** Global state of the application, after `initialize` in the create transaction. */
  datatype Contract = Contract(
    creator: nat, buyer: nat, seller: nat, amount: nat, sessionId: string, status: Status, frozen: bool)

  datatype Payment = Payment(to: nat, amount: nat, note: string)

  datatype Method = Fund | Release(merkleRoot: string) | Refund(reason: string) | Freeze | Unfreeze

  datatype Txn =
    | Pay(sender: nat, receiver: nat, amount: nat, fee: nat)
    | Call(sender: nat, fee: nat, method_: Method)

  /** `app` is the contract's own account; `paid` lists the inner payments made so far. */
  datatype World = World(l: Ledger, app: nat, sink: nat, c: Contract, paid: seq<Payment>)

  predicate Wellformed(w: World) {
    && w.app < |w.l| && w.sink < |w.l| && w.app != w.sink
    && w.c.creator < |w.l| && w.c.buyer < |w.l| && w.c.seller < |w.l|
  }

  predicate KnownAccounts(w: World, t: Txn) {
    t.sender < |w.l| && (t.Pay? ==> t.receiver < |w.l|)
  }

  function Initialize(creator: nat, buyer: nat, seller: nat, amount: nat, sessionId: string): Contract {
    Contract(creator, buyer, seller, amount, sessionId, Deployed, false)
  }

  // ---------------------------------------------------------------------------------------------
  // Contract methods: `None` where an assertion fails
  // ---------------------------------------------------------------------------------------------

  /** `payment` is the transaction just before the call in its group. */
  function FundCall(w: World, payment: Option<Txn>): Option<World> {
    if w.c.status != Deployed || w.c.frozen then None
    else if payment == None || !payment.value.Pay? then None
    else if payment.value.receiver != w.app || payment.value.amount != w.c.amount then None
    else Some(w.(c := w.c.(status := Funded)))
  }

  /** The inner payment of a release or refund. */
  function InnerPayment(w: World, to: nat, note: string, after: Status): Option<World>
    requires Wellformed(w) && to < |w.l|
  {
    match Transfer(w.l, w.app, to, w.c.amount)
    case None => None
    case Some(l) => Some(w.(l := l, paid := w.paid + [Payment(to, w.c.amount, note)], c := w.c.(status := after)))
  }

  function ReleaseCall(w: World, sender: nat, merkleRoot: string): Option<World>
    requires Wellformed(w)
  {
    if sender != w.c.creator || w.c.status != Funded || w.c.frozen then None
    else InnerPayment(w, w.c.seller, merkleRoot, Released)
  }

  function RefundCall(w: World, sender: nat, reason: string): Option<World>
    requires Wellformed(w)
  {
    if sender != w.c.creator || w.c.status != Funded || w.c.frozen then None
    else InnerPayment(w, w.c.buyer, reason, Refunded)
  }

  function FreezeCall(w: World, sender: nat): Option<World> {
    if sender != w.c.buyer && sender != w.c.seller && sender != w.c.creator then None
    else Some(w.(c := w.c.(frozen := true)))
  }

  function UnfreezeCall(w: World, sender: nat): Option<World> {
    if sender != w.c.creator || !w.c.frozen then None
    else Some(w.(c := w.c.(frozen := false)))
  }

  function Dispatch(w: World, sender: nat, m: Method, payment: Option<Txn>): Option<World>
    requires Wellformed(w)
  {
    match m
    case Fund => FundCall(w, payment)
    case Release(root) => ReleaseCall(w, sender, root)
    case Refund(reason) => RefundCall(w, sender, reason)
    case Freeze => FreezeCall(w, sender)
    case Unfreeze => UnfreezeCall(w, sender)
  }

  // ---------------------------------------------------------------------------------------------
  // Transactions and atomic groups
  // ---------------------------------------------------------------------------------------------

  /** One top-level transaction; nobody can sign for the contract account. */
  function Execute(w: World, t: Txn, before: Option<Txn>): Option<World>
    requires Wellformed(w)
  {
    if !KnownAccounts(w, t) || t.sender == w.app then None
    else
      match Transfer(w.l, t.sender, w.sink, t.fee)
      case None => None
      case Some(l) =>
        var charged := w.(l := l);
        var done := match t
          case Pay(sender, receiver, amount, _) =>
            (match Transfer(l, sender, receiver, amount)
             case None => None
             case Some(l') => Some(charged.(l := l')))
          case Call(sender, _, m) => Dispatch(charged, sender, m, before);
        if done.Some? && AllHoldable(done.value.l) then done else None
  }

  function ExecuteFrom(w: World, g: seq<Txn>, i: nat): Option<World>
    requires Wellformed(w) && i <= |g|
    decreases |g| - i
  {
    if i == |g| then Some(w)
    else
      match Execute(w, g[i], if i == 0 then None else Some(g[i - 1]))
      case None => None
      case Some(w') => ExecuteKeepsAccounts(w, g[i], if i == 0 then None else Some(g[i - 1])); ExecuteFrom(w', g, i + 1)
  }

  function Fees(g: seq<Txn>): nat {
    if g == [] then 0 else g[0].fee + Fees(g[1..])
  }

  /** All or nothing: a failed transaction or an underpaid fee pool leaves the world as it was. */
  function Submit(w: World, g: seq<Txn>): World
    requires Wellformed(w)
  {
    if !(1 <= |g| <= MAX_GROUP) then w
    else
      match ExecuteFrom(w, g, 0)
      case None => w
      case Some(w') => if Fees(g) < MIN_FEE * (|g| + |w'.paid| - |w.paid|) then w else w'
  }

  function Run(w: World, groups: seq<seq<Txn>>): World
    requires Wellformed(w)
    decreases |groups|
  {
    if groups == [] then w
    else SubmitKeepsAccounts(w, groups[0]); Run(Submit(w, groups[0]), groups[1..])
  }

  /** Accounts, roles and the agreed amount never change. */
  ghost predicate SameTerms(w: World, w': World) {
    && |w'.l| == |w.l| && w'.app == w.app && w'.sink == w.sink
    && w'.c == w.c.(status := w'.c.status, frozen := w'.c.frozen)
  }

  lemma ExecuteKeepsAccounts(w: World, t: Txn, before: Option<Txn>)
    requires Wellformed(w)
    ensures Execute(w, t, before).Some? ==> SameTerms(w, Execute(w, t, before).value)
  {
  }

  lemma {:induction false} ExecuteFromKeepsAccounts(w: World, g: seq<Txn>, i: nat)
    requires Wellformed(w) && i <= |g|
    ensures ExecuteFrom(w, g, i).Some? ==> SameTerms(w, ExecuteFrom(w, g, i).value)
    decreases |g| - i
  {
    if i < |g| {
      var before := if i == 0 then None else Some(g[i - 1]);
      ExecuteKeepsAccounts(w, g[i], before);
      if Execute(w, g[i], before).Some? {
        ExecuteFromKeepsAccounts(Execute(w, g[i], before).value, g, i + 1);
      }
    }
  }

  lemma SubmitKeepsAccounts(w: World, g: seq<Txn>)
    requires Wellformed(w)
    ensures SameTerms(w, Submit(w, g))
  {
    ExecuteFromKeepsAccounts(w, g, 0);
  }
}
