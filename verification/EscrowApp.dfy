/** The contract as it runs: methods that assign its global state, and groups that roll back. */
module EscrowApp {
  import opened Prelude
  import opened EscrowLedger
  import opened EscrowContract
  import opened EscrowSafety

  class CadenciaEscrow {
    var l: Ledger
    const app: nat
    const sink: nat
    const creator: nat
    const buyer: nat
    const seller: nat
    const amount: nat
    const sessionId: string
    var status: Status
    var frozen: bool
    var paid: seq<Payment>

    ghost function Abs(): World
      reads this
    {
      World(l, app, sink, Contract(creator, buyer, seller, amount, sessionId, status, frozen), paid)
    }

    ghost predicate Valid()
      reads this
    {
      Inv(Abs())
    }

    /** `initialize`, in the create transaction. */
    constructor Initialize(l: Ledger, app: nat, sink: nat, creator: nat, buyer: nat, seller: nat, amount: nat, sessionId: string)
      requires app < |l| && sink < |l| && app != sink && creator < |l| && buyer < |l| && seller < |l|
      ensures Valid()
      ensures Abs() == World(l, app, sink, Contract(creator, buyer, seller, amount, sessionId, Deployed, false), [])
    {
      this.l, this.app, this.sink := l, app, sink;
      this.creator, this.buyer, this.seller := creator, buyer, seller;
      this.amount, this.sessionId := amount, sessionId;
      status, frozen, paid := Deployed, false, [];
    }

    /** The state after a call that may fail: the new one, or the old one untouched. */
    ghost predicate Became(before: World, after: Option<World>, ok: bool)
      reads this
    {
      Abs() == (if after.Some? then after.value else before) && (ok <==> after.Some?)
    }

    method FundEscrow(payment: Option<Txn>) returns (ok: bool)
      modifies this`status
      ensures Became(old(Abs()), FundCall(old(Abs()), payment), ok)
      ensures ok <==> Permitted(old(Abs()), creator, Fund, payment)
      ensures status == if ok then Funded else old(status)
    {
      if status != Deployed || frozen || payment == None || !payment.value.Pay? {
        return false;
      }
      if payment.value.receiver != app || payment.value.amount != amount {
        return false;
      }
      status := Funded;
      return true;
    }

    method SendInner(to: nat, note: string) returns (ok: bool)
      requires Wellformed(Abs()) && to < |l|
      modifies this`l, this`paid
      ensures var r := InnerPayment(old(Abs()), to, note, status);
        Became(old(Abs()), r, ok)
    {
      match Transfer(l, app, to, amount)
      case None => return false;
      case Some(l') =>
        l := l';
        paid := paid + [Payment(to, amount, note)];
        return true;
    }

    method ReleaseEscrow(sender: nat, merkleRoot: string) returns (ok: bool)
      requires Wellformed(Abs())
      modifies this`l, this`paid, this`status
      ensures Became(old(Abs()), ReleaseCall(old(Abs()), sender, merkleRoot), ok)
      ensures ok <==> Permitted(old(Abs()), sender, Release(merkleRoot), None) && old(l)[app] >= amount
      ensures ok ==> status == Released && paid == old(paid) + [Payment(seller, amount, merkleRoot)]
    {
      if sender != creator || status != Funded || frozen {
        return false;
      }
      ok := SendInner(seller, merkleRoot);
      if ok {
        status := Released;
      }
    }

    method RefundEscrow(sender: nat, reason: string) returns (ok: bool)
      requires Wellformed(Abs())
      modifies this`l, this`paid, this`status
      ensures Became(old(Abs()), RefundCall(old(Abs()), sender, reason), ok)
      ensures ok <==> Permitted(old(Abs()), sender, Refund(reason), None) && old(l)[app] >= amount
      ensures ok ==> status == Refunded && paid == old(paid) + [Payment(buyer, amount, reason)]
    {
      if sender != creator || status != Funded || frozen {
        return false;
      }
      ok := SendInner(buyer, reason);
      if ok {
        status := Refunded;
      }
    }

    method FreezeEscrow(sender: nat) returns (ok: bool)
      modifies this`frozen
      ensures Became(old(Abs()), FreezeCall(old(Abs()), sender), ok)
      ensures ok <==> sender in {buyer, seller, creator}
      ensures frozen == (old(frozen) || ok)
    {
      if sender != buyer && sender != seller && sender != creator {
        return false;
      }
      frozen := true;
      return true;
    }

    method UnfreezeEscrow(sender: nat) returns (ok: bool)
      modifies this`frozen
      ensures Became(old(Abs()), UnfreezeCall(old(Abs()), sender), ok)
      ensures ok <==> sender == creator && old(frozen)
      ensures frozen == (old(frozen) && !ok)
    {
      if sender != creator || !frozen {
        return false;
      }
      frozen := false;
      return true;
    }

    method Route(sender: nat, m: Method, before: Option<Txn>) returns (ok: bool)
      requires Wellformed(Abs())
      modifies this`l, this`paid, this`status, this`frozen
      ensures Became(old(Abs()), Dispatch(old(Abs()), sender, m, before), ok)
    {
      match m
      case Fund => ok := FundEscrow(before);
      case Release(root) => ok := ReleaseEscrow(sender, root);
      case Refund(reason) => ok := RefundEscrow(sender, reason);
      case Freeze => ok := FreezeEscrow(sender);
      case Unfreeze => ok := UnfreezeEscrow(sender);
    }

    /** One transaction; on failure the caller undoes the group. */
    method Apply(t: Txn, before: Option<Txn>) returns (ok: bool)
      requires Wellformed(Abs())
      modifies this`l, this`paid, this`status, this`frozen
      ensures ok <==> Execute(old(Abs()), t, before).Some?
      ensures ok ==> Abs() == Execute(old(Abs()), t, before).value
    {
      if t.sender >= |l| || (t.Pay? && t.receiver >= |l|) || t.sender == app {
        return false;
      }
      var charged := Transfer(l, t.sender, sink, t.fee);
      if charged == None {
        return false;
      }
      l := charged.value;
      match t {
        case Pay(sender, receiver, amount, _) =>
          var moved := Transfer(l, sender, receiver, amount);
          ok := moved.Some?;
          if ok {
            l := moved.value;
          }
        case Call(sender, _, m) =>
          ok := Route(sender, m, before);
      }
      ok := ok && AllHoldable(l);
    }

    /** An atomic group: every transaction in order, or none of them. */
    method SubmitGroup(g: seq<Txn>) returns (ok: bool)
      requires Valid()
      modifies this`l, this`paid, this`status, this`frozen
      ensures Valid()
      ensures Abs() == Submit(old(Abs()), g)
      ensures !ok ==> Abs() == old(Abs())
    {
      ghost var start := Abs();
      SubmitKept(start, g);
      var l0, paid0, status0, frozen0 := l, paid, status, frozen;
      ok := 1 <= |g| <= MAX_GROUP;
      if !ok {
        return;
      }
      var fees := 0;
      var i := 0;
      while ok && i < |g|
        invariant i <= |g|
        invariant ok ==> Wellformed(Abs()) && ExecuteFrom(start, g, 0) == ExecuteFrom(Abs(), g, i)
        invariant !ok ==> ExecuteFrom(start, g, 0) == None
        invariant ok ==> fees + Fees(g[i..]) == Fees(g)
      {
        var before := if i == 0 then None else Some(g[i - 1]);
        ghost var w := Abs();
        ExecuteKeepsAccounts(w, g[i], before);
        ok := Apply(g[i], before);
        fees := fees + g[i].fee;
        assert g[i..][1..] == g[i + 1..];
        i := i + 1;
      }
      assert ok ==> g[i..] == [];
      ok := ok && fees >= MIN_FEE * (|g| + |paid| - |paid0|);
      if !ok {
        l, paid, status, frozen := l0, paid0, status0, frozen0;
      }
    }
  }
}
