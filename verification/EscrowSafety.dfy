/** What every run of contract calls and outside payments keeps, and when a payout goes through. */
module EscrowSafety {
  import opened Prelude
  import opened EscrowLedger
  import opened EscrowContract

  // ---------------------------------------------------------------------------------------------
  // One transaction
  // ---------------------------------------------------------------------------------------------

  /** Nothing paid before the end, then exactly the amount, to the seller or back to the buyer. */
  ghost predicate PaidAsAgreed(w: World) {
    match w.c.status
    case Deployed => w.paid == []
    case Funded => w.paid == []
    case Released => |w.paid| == 1 && w.paid[0].to == w.c.seller && w.paid[0].amount == w.c.amount
    case Refunded => |w.paid| == 1 && w.paid[0].to == w.c.buyer && w.paid[0].amount == w.c.amount
  }

  ghost predicate Inv(w: World) {
    && Wellformed(w)
    && PaidAsAgreed(w)
    && (w.c.status == Funded ==> w.l[w.app] >= w.c.amount)
  }

  predicate NextStatus(s: Status, s': Status) {
    || s == s'
    || (s == Deployed && s' == Funded)
    || (s == Funded && (s' == Released || s' == Refunded))
  }

  predicate Later(s: Status, s': Status) {
    s == s' || s == Deployed || (s == Funded && s' != Deployed)
  }

  /** If the transaction before was a payment, its receiver has the money. */
  ghost predicate Arrived(w: World, before: Option<Txn>) {
    before.Some? && before.value.Pay? ==>
      before.value.receiver < |w.l| && w.l[before.value.receiver] >= before.value.amount
  }

  /** The one transaction that can end a freeze: the creator's own unfreeze. */
  predicate LiftsFreeze(creator: nat, t: Txn) {
    t.Call? && t.method_ == Unfreeze && t.sender == creator
  }

  /** What a successful transaction does, whatever it is. */
  ghost predicate Kept(w: World, t: Txn, w': World) {
    && Wellformed(w) && KnownAccounts(w, t)
    && SameTerms(w, w')
    && Total(w'.l) == Total(w.l)
    && NextStatus(w.c.status, w'.c.status)
    && (w'.paid == w.paid <==> !(w.c.status == Funded && w'.c.status != Funded))
    && (w.c.frozen && !LiftsFreeze(w.c.creator, t) ==> w'.c == w.c && w'.paid == w.paid)
    && (w.c.frozen ==> w'.l[w.app] >= w.l[w.app])
    && (w.c.frozen && t.Call? ==> Some(w'.l) == Transfer(w.l, t.sender, w.sink, t.fee))
    && (t.Pay? ==> w'.c == w.c && w'.paid == w.paid)
    && Authorised(w, t.sender, w')
  }

  /** Only the creator ends an escrow or lifts a freeze, and only a party or the creator freezes. */
  ghost predicate Authorised(w: World, sender: nat, w': World) {
    && (w.c.status == Funded && w'.c.status != Funded ==> sender == w.c.creator)
    && (w.c.frozen && !w'.c.frozen ==> sender == w.c.creator)
    && (!w.c.frozen && w'.c.frozen ==> sender in {w.c.buyer, w.c.seller, w.c.creator})
  }

  lemma FeeCharged(w: World, t: Txn)
    requires Inv(w) && KnownAccounts(w, t) && t.sender != w.app && w.l[t.sender] >= t.fee
    ensures var l := Transfer(w.l, t.sender, w.sink, t.fee);
      && l.Some? && |l.value| == |w.l| && Total(l.value) == Total(w.l)
      && l.value[w.app] == w.l[w.app]
      && Inv(w.(l := l.value))
  {
    TransferConserves(w.l, t.sender, w.sink, t.fee);
  }

  lemma InnerPaymentKept(w: World, to: nat, note: string, after: Status)
    requires Inv(w) && to < |w.l| && w.c.status == Funded
    requires (after == Released && to == w.c.seller) || (after == Refunded && to == w.c.buyer)
    ensures var r := InnerPayment(w, to, note, after);
      && r.Some? && Inv(r.value) && SameTerms(w, r.value)
      && Total(r.value.l) == Total(w.l)
      && r.value.c.status == after && r.value.paid == w.paid + [Payment(to, w.c.amount, note)]
      && r.value.c.frozen == w.c.frozen
  {
    TransferConserves(w.l, w.app, to, w.c.amount);
  }

  lemma DispatchKept(w: World, sender: nat, m: Method, before: Option<Txn>)
    requires Inv(w) && Arrived(w, before)
    ensures var r := Dispatch(w, sender, m, before);
      r.Some? ==>
        && Inv(r.value) && SameTerms(w, r.value)
        && Total(r.value.l) == Total(w.l)
        && NextStatus(w.c.status, r.value.c.status)
        && (r.value.paid == w.paid <==> !(w.c.status == Funded && r.value.c.status != Funded))
        && (w.c.frozen ==> r.value.l == w.l && r.value.paid == w.paid)
        && (w.c.frozen && !(m == Unfreeze && sender == w.c.creator) ==> r.value.c == w.c)
        && Authorised(w, sender, r.value)
  {
    match m
    case Release(root) =>
      if w.c.status == Funded {
        InnerPaymentKept(w, w.c.seller, root, Released);
      }
    case Refund(reason) =>
      if w.c.status == Funded {
        InnerPaymentKept(w, w.c.buyer, reason, Refunded);
      }
    case _ =>
  }

  lemma ExecuteKept(w: World, t: Txn, before: Option<Txn>)
    requires Inv(w) && Arrived(w, before) && Execute(w, t, before).Some?
    ensures var w' := Execute(w, t, before).value;
      && Inv(w') && Kept(w, t, w')
      && Arrived(w', Some(t))
  {
    FeeCharged(w, t);
    var charged := w.(l := Transfer(w.l, t.sender, w.sink, t.fee).value);
    TransferConserves(w.l, t.sender, w.sink, t.fee);
    match t
    case Pay(sender, receiver, amount, _) =>
      TransferConserves(charged.l, sender, receiver, amount);
    case Call(sender, _, m) =>
      if before.Some? && before.value.Pay? && before.value.receiver == w.app {
        assert Arrived(charged, before);
        DispatchKept(charged, sender, m, before);
      } else {
        assert Dispatch(charged, sender, m, before) == Dispatch(charged, sender, m, None);
        DispatchKept(charged, sender, m, None);
      }
  }

  // ---------------------------------------------------------------------------------------------
  // Groups and runs
  // ---------------------------------------------------------------------------------------------

  predicate NeverLifts(creator: nat, g: seq<Txn>) {
    forall i :: 0 <= i < |g| ==> !LiftsFreeze(creator, g[i])
  }

  /** Across any number of transactions. */
  ghost predicate KeptAcross(w: World, w': World, lifted: bool)
    requires w.app < |w.l|
  {
    && SameTerms(w, w')
    && Total(w'.l) == Total(w.l)
    && Later(w.c.status, w'.c.status)
    && (w.c.frozen && !lifted ==> w'.c == w.c && w'.paid == w.paid && w'.l[w.app] >= w.l[w.app])
  }

  lemma {:induction false} ExecuteFromKept(w: World, g: seq<Txn>, i: nat)
    requires Inv(w) && i <= |g|
    requires i > 0 ==> Arrived(w, Some(g[i - 1]))
    requires ExecuteFrom(w, g, i).Some?
    ensures Inv(ExecuteFrom(w, g, i).value)
    ensures KeptAcross(w, ExecuteFrom(w, g, i).value, !NeverLifts(w.c.creator, g))
    decreases |g| - i
  {
    if i < |g| {
      var before := if i == 0 then None else Some(g[i - 1]);
      ExecuteKept(w, g[i], before);
      var w1 := Execute(w, g[i], before).value;
      ExecuteFromKept(w1, g, i + 1);
      assert NeverLifts(w.c.creator, g) ==> !LiftsFreeze(w.c.creator, g[i]);
    }
  }

  lemma SubmitKept(w: World, g: seq<Txn>)
    requires Inv(w)
    ensures Inv(Submit(w, g)) && KeptAcross(w, Submit(w, g), !NeverLifts(w.c.creator, g))
  {
    if ExecuteFrom(w, g, 0).Some? {
      ExecuteFromKept(w, g, 0);
    }
  }

  /**
   Every run of groups, contract calls mixed with any payments by anyone: money is conserved, terms
   stay fixed, status never moves back, a funded contract account can cover the amount, and the
   inner payments are none before the end and then one, of the amount, to the party the status names.
   A frozen escrow keeps its whole state and pays nothing until the creator unfreezes it, whatever
   anyone else sends, an unfreeze included.
   */
  lemma {:induction false} EveryRunSafe(w: World, groups: seq<seq<Txn>>)
    requires Inv(w)
    ensures var w' := Run(w, groups);
      && Inv(w')
      && SameTerms(w, w')
      && Total(w'.l) == Total(w.l)
      && Later(w.c.status, w'.c.status)
    ensures var w' := Run(w, groups);
      w.c.frozen && (forall i :: 0 <= i < |groups| ==> NeverLifts(w.c.creator, groups[i])) ==>
        w'.c == w.c && w'.paid == w.paid && |w'.l| == |w.l| && w'.l[w.app] >= w.l[w.app]
    decreases |groups|
  {
    if groups != [] {
      SubmitKept(w, groups[0]);
      EveryRunSafe(Submit(w, groups[0]), groups[1..]);
    }
  }

  /** From creation on: who has been paid, and how much, is what the status says. */
  lemma FromCreation(l: Ledger, app: nat, sink: nat, creator: nat, buyer: nat, seller: nat, amount: nat,
                     sessionId: string, groups: seq<seq<Txn>>)
    requires app < |l| && sink < |l| && app != sink && creator < |l| && buyer < |l| && seller < |l|
    ensures var w := Run(World(l, app, sink, Initialize(creator, buyer, seller, amount, sessionId), []), groups);
      && |w.l| == |l| && w.app == app && w.sink == sink
      && w.c == Contract(creator, buyer, seller, amount, sessionId, w.c.status, w.c.frozen)
      && (groups == [] ==> w.c.status == Deployed && !w.c.frozen)
      && Total(w.l) == Total(l)
      && |w.paid| <= 1
      && (w.paid != [] <==> w.c.status == Released || w.c.status == Refunded)
      && (w.c.status == Released ==> w.paid[0].to == seller && w.paid[0].amount == amount)
      && (w.c.status == Refunded ==> w.paid[0].to == buyer && w.paid[0].amount == amount)
      && (w.c.status == Funded ==> w.l[w.app] >= amount)
  {
    EveryRunSafe(World(l, app, sink, Initialize(creator, buyer, seller, amount, sessionId), []), groups);
  }

  // ---------------------------------------------------------------------------------------------
  // Progress of a release or refund
  // ---------------------------------------------------------------------------------------------

  /** The creator's call that pays `Payee` out. */
  predicate IsPayout(m: Method) {
    m.Release? || m.Refund?
  }

  function Payee(w: World, m: Method): nat {
    if m.Release? then w.c.seller else w.c.buyer
  }

  /** Balances after the creator has paid the fee and the contract the amount. */
  function AfterPayout(l: Ledger, w: World, m: Method, fee: nat): Ledger
    requires Wellformed(w) && |l| == |w.l| && l[w.c.creator] >= fee && l[w.app] >= w.c.amount
    requires w.c.creator != w.app
  {
    var charged := l[w.c.creator := l[w.c.creator] - fee];
    var collected := charged[w.sink := charged[w.sink] + fee];
    var debited := collected[w.app := collected[w.app] - w.c.amount];
    debited[Payee(w, m) := debited[Payee(w, m)] + w.c.amount]
  }

  /** Everyone but the contract account ends with nothing or enough. */
  ghost predicate OthersHoldable(l: Ledger, w: World) {
    forall a :: 0 <= a < |l| && a != w.app ==> Holdable(l[a])
  }

  function PayoutCall(w: World, m: Method, fee: nat): Txn {
    Call(w.c.creator, fee, m)
  }

  ghost predicate CanPayOut(w: World, m: Method) {
    && Inv(w) && IsPayout(m)
    && w.c.status == Funded && !w.c.frozen
    && w.c.creator != w.app && Payee(w, m) != w.app
  }

  function Note(m: Method): string
    requires IsPayout(m)
  {
    if m.Release? then m.merkleRoot else m.reason
  }

  /** The world after the payout: one inner payment of the amount, and the status that names it. */
  function PaidOut(w: World, m: Method, l: Ledger): World
    requires IsPayout(m)
  {
    w.(l := l,
       paid := w.paid + [Payment(Payee(w, m), w.c.amount, Note(m))],
       c := w.c.(status := if m.Release? then Released else Refunded))
  }

  /**
   Without a top-up, the creator's release or refund of a funded, unfrozen escrow goes through
   exactly when its fee covers the inner payment too and the contract account is left with nothing or
   with at least the minimum balance.
   */
  lemma PayoutAloneIff(w: World, m: Method, fee: nat)
    requires CanPayOut(w, m) && w.l[w.c.creator] >= fee
    requires OthersHoldable(AfterPayout(w.l, w, m, fee), w)
    ensures var surplus := w.l[w.app] - w.c.amount;
      Submit(w, [PayoutCall(w, m, fee)]) ==
        if fee >= 2000 && (surplus == 0 || surplus >= 100_000) then PaidOut(w, m, AfterPayout(w.l, w, m, fee)) else w
  {
    var g := [PayoutCall(w, m, fee)];
    var l := AfterPayout(w.l, w, m, fee);
    assert AllHoldable(l) <==> Holdable(l[w.app]);
    assert g[1..] == [] && Fees(g) == fee;
    if AllHoldable(l) {
      ExecuteKeepsAccounts(w, g[0], None);
      assert ExecuteFrom(PaidOut(w, m, l), g, 1) == Some(PaidOut(w, m, l));
      assert ExecuteFrom(w, g, 0) == Some(PaidOut(w, m, l));
    }
  }

  /** The two-transaction group of the wallet: 100,000 to the contract account, then the call. */
  function ToppedUp(w: World, m: Method, fee: nat): seq<Txn> {
    [Pay(w.c.creator, w.app, MIN_BALANCE, fee), PayoutCall(w, m, fee)]
  }

  /** Balances after the top-up has been paid. */
  function AfterTopUp(w: World, fee: nat): Ledger
    requires Wellformed(w) && w.c.creator != w.app && w.l[w.c.creator] >= fee + MIN_BALANCE
  {
    var charged := w.l[w.c.creator := w.l[w.c.creator] - fee];
    var collected := charged[w.sink := charged[w.sink] + fee];
    var debited := collected[w.c.creator := collected[w.c.creator] - MIN_BALANCE];
    debited[w.app := debited[w.app] + MIN_BALANCE]
  }

  lemma TwoTransactions(w: World, g: seq<Txn>, w1: World, w2: World)
    requires Wellformed(w) && Wellformed(w1) && |g| == 2
    requires Execute(w, g[0], None) == Some(w1)
    requires Execute(w1, g[1], Some(g[0])) == Some(w2)
    requires |w2.paid| >= |w.paid|
    ensures Submit(w, g) == if g[0].fee + g[1].fee >= MIN_FEE * (2 + |w2.paid| - |w.paid|) then w2 else w
  {
    ExecuteKeepsAccounts(w1, g[1], Some(g[0]));
    assert ExecuteFrom(w2, g, 2) == Some(w2);
    assert ExecuteFrom(w1, g, 1) == Some(w2);
    assert ExecuteFrom(w, g, 0) == Some(w2);
    assert g[1..] == [g[1]] && g[1..][1..] == [];
    assert Fees(g[1..]) == g[1].fee + Fees([]);
  }

  /** With the top-up it goes through for every surplus that stray payments have left, for three fees. */
  lemma ToppedUpPayoutSucceeds(w: World, m: Method, fee: nat)
    requires CanPayOut(w, m)
    requires w.l[w.c.creator] >= fee + MIN_BALANCE
    requires OthersHoldable(AfterTopUp(w, fee), w)
    requires AfterTopUp(w, fee)[w.c.creator] >= fee
    requires OthersHoldable(AfterPayout(AfterTopUp(w, fee), w, m, fee), w)
    ensures Submit(w, ToppedUp(w, m, fee)) ==
      if 2 * fee >= 3000 then PaidOut(w, m, AfterPayout(AfterTopUp(w, fee), w, m, fee)) else w
  {
    FundedIsCovered(w);
    PayoutAfter(w, w.(l := AfterTopUp(w, fee)), m, fee);
  }

  lemma FundedIsCovered(w: World)
    requires Inv(w) && w.c.status == Funded
    ensures w.l[w.app] >= w.c.amount
  {
  }

  /** Once the top-up is in, the payout follows. */
  lemma PayoutAfter(w: World, w1: World, m: Method, fee: nat)
    requires CanPayOut(w, m) && Inv(w1) && w1 == w.(l := w1.l)
    requires Execute(w, Pay(w.c.creator, w.app, MIN_BALANCE, fee), None) == Some(w1)
    requires |w1.l| == |w.l| && w1.l[w.app] >= w.c.amount + MIN_BALANCE && w1.l[w.c.creator] >= fee
    requires OthersHoldable(AfterPayout(w1.l, w, m, fee), w)
    ensures Submit(w, ToppedUp(w, m, fee)) ==
      if 2 * fee >= 3000 then PaidOut(w, m, AfterPayout(w1.l, w, m, fee)) else w
  {
    PaidAfterTopUp(w, w1, m, fee, AfterPayout(w1.l, w, m, fee));
  }

  /** The two steps of the group, each known to succeed, are the group. */
  lemma PaidAfterTopUp(w: World, w1: World, m: Method, fee: nat, l: Ledger)
    requires Wellformed(w) && Wellformed(w1) && IsPayout(m) && w1 == w.(l := w1.l)
    requires Execute(w, Pay(w.c.creator, w.app, MIN_BALANCE, fee), None) == Some(w1)
    requires Execute(w1, PayoutCall(w1, m, fee), Some(Pay(w.c.creator, w.app, MIN_BALANCE, fee))) == Some(PaidOut(w1, m, l))
    ensures Submit(w, ToppedUp(w, m, fee)) == if 2 * fee >= 3000 then PaidOut(w, m, l) else w
  {
    OverwrittenLedger(w, w1, m, l);
    TwoTransactions(w, ToppedUp(w, m, fee), w1, PaidOut(w, m, l));
  }

  lemma OverwrittenLedger(w: World, w1: World, m: Method, l: Ledger)
    requires IsPayout(m) && w1 == w.(l := w1.l)
    ensures PaidOut(w1, m, l) == PaidOut(w, m, l) && |PaidOut(w, m, l).paid| == |w.paid| + 1
  {
  }

  // ---------------------------------------------------------------------------------------------
  // Funding and freezing
  // ---------------------------------------------------------------------------------------------

  /** Balances after `from` has paid a fee, and `amount` to the contract account. */
  function AfterPayIn(w: World, from: nat, amount: nat, fee: nat): (r: Ledger)
    requires Wellformed(w) && from < |w.l| && from != w.app && w.l[from] >= fee + amount
    ensures |r| == |w.l|
  {
    var charged := w.l[from := w.l[from] - fee];
    var collected := charged[w.sink := charged[w.sink] + fee];
    var debited := collected[from := collected[from] - amount];
    debited[w.app := debited[w.app] + amount]
  }

  function AfterFee(w: World, l: Ledger, from: nat, fee: nat): (r: Ledger)
    ensures |r| == |l|
    requires Wellformed(w) && |l| == |w.l| && from < |l| && l[from] >= fee
  {
    var charged := l[from := l[from] - fee];
    charged[w.sink := charged[w.sink] + fee]
  }

  lemma PayInExecutes(w: World, from: nat, amount: nat, fee: nat)
    requires Wellformed(w) && from < |w.l| && from != w.app && w.l[from] >= fee + amount
    requires AllHoldable(AfterPayIn(w, from, amount, fee))
    ensures Execute(w, Pay(from, w.app, amount, fee), None) == Some(w.(l := AfterPayIn(w, from, amount, fee)))
    ensures AfterPayIn(w, from, amount, fee)[w.app] == w.l[w.app] + amount
  {
  }

  lemma FundExecutes(w: World, from: nat, fee: nat, payment: Txn)
    requires Wellformed(w) && from < |w.l| && from != w.app && w.l[from] >= fee
    requires w.c.status == Deployed && !w.c.frozen
    requires payment.Pay? && payment.receiver == w.app && payment.amount == w.c.amount
    requires AllHoldable(AfterFee(w, w.l, from, fee))
    ensures Execute(w, Call(from, fee, Fund), Some(payment)) ==
      Some(w.(l := AfterFee(w, w.l, from, fee), c := w.c.(status := Funded)))
  {
  }

  /**
   Anyone who can pay funds a deployed, unfrozen escrow by a payment of the amount and the call in
   one group: the contract account gains exactly the amount, the escrow is funded and nothing else
   changes but the fees. With a smaller fee than the network's the group is refused whole.
   */
  lemma FundingGroupSucceeds(w: World, payer: nat, fee: nat)
    requires Inv(w) && w.c.status == Deployed && !w.c.frozen
    requires payer < |w.l| && payer != w.app && w.l[payer] >= fee + w.c.amount
    requires var paid := AfterPayIn(w, payer, w.c.amount, fee);
      && AllHoldable(paid) && paid[payer] >= fee
      && AllHoldable(AfterFee(w, paid, payer, fee))
    ensures var l := AfterFee(w, AfterPayIn(w, payer, w.c.amount, fee), payer, fee);
      && Submit(w, [Pay(payer, w.app, w.c.amount, fee), Call(payer, fee, Fund)]) ==
           (if fee >= 1000 then w.(l := l, c := w.c.(status := Funded)) else w)
      && l[w.app] == w.l[w.app] + w.c.amount
  {
    var g := [Pay(payer, w.app, w.c.amount, fee), Call(payer, fee, Fund)];
    var w1 := w.(l := AfterPayIn(w, payer, w.c.amount, fee));
    var w2 := w1.(l := AfterFee(w1, w1.l, payer, fee), c := w1.c.(status := Funded));
    assert Execute(w, g[0], None) == Some(w1) && w1.l[w.app] == w.l[w.app] + w.c.amount by {
      PayInExecutes(w, payer, w.c.amount, fee);
    }
    assert Execute(w1, g[1], Some(g[0])) == Some(w2) by {
      FundExecutes(w1, payer, fee, g[0]);
    }
    TwoTransactions(w, g, w1, w2);
  }

  // ---------------------------------------------------------------------------------------------
  // Who may call what, and when
  // ---------------------------------------------------------------------------------------------

  ghost predicate Permitted(w: World, sender: nat, m: Method, before: Option<Txn>) {
    match m
    case Fund =>
      && w.c.status == Deployed && !w.c.frozen
      && exists from, fee :: before == Some(Pay(from, w.app, w.c.amount, fee))
    case Freeze => sender in {w.c.buyer, w.c.seller, w.c.creator}
    case Unfreeze => sender == w.c.creator && w.c.frozen
    case _ => sender == w.c.creator && w.c.status == Funded && !w.c.frozen
  }

  /** What a call other than a payout does to the contract. */
  ghost function ContractAfter(c: Contract, m: Method): Contract {
    match m
    case Fund => c.(status := Funded)
    case Freeze => c.(frozen := true)
    case Unfreeze => c.(frozen := false)
    case _ => c
  }

  /** A call that is not permitted fails; any other but a payout goes through and costs the fee. */
  lemma CallGoesThroughIff(w: World, sender: nat, fee: nat, m: Method, before: Option<Txn>)
    requires Inv(w) && sender < |w.l| && sender != w.app && w.l[sender] >= fee
    ensures !Permitted(w, sender, m, before) ==> Execute(w, Call(sender, fee, m), before) == None
    ensures Permitted(w, sender, m, before) && !IsPayout(m) && AllHoldable(AfterFee(w, w.l, sender, fee)) ==>
      Execute(w, Call(sender, fee, m), before) ==
        Some(w.(l := AfterFee(w, w.l, sender, fee), c := ContractAfter(w.c, m)))
  {
    FeeCharged(w, Call(sender, fee, m));
  }

  /** A group in which a transaction fails at its turn leaves the world as it was. */
  lemma FailedTransactionUndoesGroup(w: World, g: seq<Txn>, k: nat, reached: World)
    requires Wellformed(w) && k < |g| && ExecuteFrom(w, g[..k], 0) == Some(reached)
    requires Wellformed(reached) && Execute(reached, g[k], if k == 0 then None else Some(g[k - 1])) == None
    ensures Submit(w, g) == w
  {
    FailsLater(w, g, 0, k, reached);
  }

  lemma {:induction false} FailsLater(w: World, g: seq<Txn>, i: nat, k: nat, reached: World)
    requires Wellformed(w) && i <= k < |g| && ExecuteFrom(w, g[..k], i) == Some(reached)
    requires Wellformed(reached) && Execute(reached, g[k], if k == 0 then None else Some(g[k - 1])) == None
    ensures ExecuteFrom(w, g, i) == None
    decreases k - i
  {
    if i < k {
      var before := if i == 0 then None else Some(g[i - 1]);
      ExecuteKeepsAccounts(w, g[i], before);
      FailsLater(Execute(w, g[i], before).value, g, i + 1, k, reached);
    }
  }

  /** A group of none, of more than sixteen, or with less than a fee for each transaction does nothing. */
  lemma GroupRefused(w: World, g: seq<Txn>)
    requires Inv(w) && (g == [] || |g| > 16 || Fees(g) < 1000 * |g|)
    ensures Submit(w, g) == w
  {
    if ExecuteFrom(w, g, 0).Some? {
      ExecuteFromPays(w, g, 0);
    }
  }

  lemma ExecutePays(w: World, t: Txn, before: Option<Txn>)
    requires Wellformed(w) && Execute(w, t, before).Some?
    ensures |w.paid| <= |Execute(w, t, before).value.paid|
  {
  }

  lemma {:induction false} ExecuteFromPays(w: World, g: seq<Txn>, i: nat)
    requires Wellformed(w) && i <= |g| && ExecuteFrom(w, g, i).Some?
    ensures |w.paid| <= |ExecuteFrom(w, g, i).value.paid|
    decreases |g| - i
  {
    if i < |g| {
      var before := if i == 0 then None else Some(g[i - 1]);
      ExecuteKeepsAccounts(w, g[i], before);
      ExecutePays(w, g[i], before);
      ExecuteFromPays(Execute(w, g[i], before).value, g, i + 1);
    }
  }

  /** One call alone in its group. */
  lemma LoneCall(w: World, sender: nat, fee: nat, m: Method)
    requires Wellformed(w)
    ensures Execute(w, Call(sender, fee, m), None) == None ==> Submit(w, [Call(sender, fee, m)]) == w
    ensures var r := Execute(w, Call(sender, fee, m), None);
      r.Some? && r.value.paid == w.paid ==> Submit(w, [Call(sender, fee, m)]) == if fee >= 1000 then r.value else w
  {
    var g := [Call(sender, fee, m)];
    ExecuteKeepsAccounts(w, g[0], None);
    assert g[1..] == [] && Fees(g) == fee;
    if Execute(w, g[0], None).Some? {
      var w1 := Execute(w, g[0], None).value;
      assert ExecuteFrom(w1, g, 1) == Some(w1);
    }
  }

  /**
   In every status, frozen or not, a freeze by the buyer, the seller or the creator goes through: it sets
   the flag, costs the fee and changes nothing else. Anybody else's, or one
   without the fee, leaves the world as it was.
   */
  lemma PartiesFreeze(w: World, sender: nat, fee: nat)
    requires Inv(w) && sender < |w.l| && sender != w.app && w.l[sender] >= fee
    requires AllHoldable(AfterFee(w, w.l, sender, fee))
    ensures Submit(w, [Call(sender, fee, Freeze)]) ==
      if sender in {w.c.buyer, w.c.seller, w.c.creator} && fee >= 1000
      then w.(l := AfterFee(w, w.l, sender, fee), c := w.c.(frozen := true)) else w
  {
    CallGoesThroughIff(w, sender, fee, Freeze, None);
    LoneCall(w, sender, fee, Freeze);
  }

  /**
   After a party's freeze, in any status, no run of groups that lacks the creator's unfreeze changes
   anything of the contract, pays anyone, or takes anything from the contract account: not with an
   unfreeze by somebody else, and not hidden in a longer group.
   */
  lemma FreezeHaltsUntilCreatorLifts(w: World, sender: nat, fee: nat, groups: seq<seq<Txn>>)
    requires Inv(w) && sender < |w.l| && sender != w.app && fee >= MIN_FEE && w.l[sender] >= fee
    requires AllHoldable(AfterFee(w, w.l, sender, fee))
    requires sender in {w.c.buyer, w.c.seller, w.c.creator}
    requires forall i :: 0 <= i < |groups| ==> NeverLifts(w.c.creator, groups[i])
    ensures var w' := Run(w, [[Call(sender, fee, Freeze)]] + groups);
      && w'.c == w.c.(frozen := true)
      && w'.paid == w.paid
      && |w'.l| == |w.l| && w'.l[w.app] >= w.l[w.app]
  {
    var freeze := [Call(sender, fee, Freeze)];
    PartiesFreeze(w, sender, fee);
    SubmitKept(w, freeze);
    FeeCharged(w, freeze[0]);
    assert ([freeze] + groups)[1..] == groups;
    EveryRunSafe(Submit(w, freeze), groups);
  }

  /**
   The creator's unfreeze alone lifts a freeze and changes nothing else but the fee; anybody else's, or
   one with nothing to lift, leaves the world as it was.
   */
  lemma CreatorLifts(w: World, sender: nat, fee: nat)
    requires Inv(w) && sender < |w.l| && sender != w.app && w.l[sender] >= fee
    requires AllHoldable(AfterFee(w, w.l, sender, fee))
    ensures Submit(w, [Call(sender, fee, Unfreeze)]) ==
      if sender == w.c.creator && w.c.frozen && fee >= 1000
      then w.(l := AfterFee(w, w.l, sender, fee), c := w.c.(frozen := false)) else w
  {
    CallGoesThroughIff(w, sender, fee, Unfreeze, None);
    LoneCall(w, sender, fee, Unfreeze);
  }
}
