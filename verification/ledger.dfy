/** Fund custody of the complete registrar. A World pairs the registrar with
    two running totals: `deposited`, the value escrowed by successful
    reveals, and `transferred`, the value paid out by the Transfer promises
    of withdraw and claim. The registrar owes each bidder its recorded
    `amount`; the sum of those is `Outstanding`. Every call keeps
    transferred + outstanding <= deposited, so the contract never pays out
    more than was escrowed, and withdraw and claim pay exactly what they
    take off the books. */
module Ledger {
  import opened Types
  import opened Sums
  import opened Contract

  /** One public call with its arguments. */
  datatype Call =
    | BidCall(name: Name, commitment: Commitment)
    | RevealCall(name: Name, amount: Amount, salt: Salt)
    | WithdrawCall(name: Name)
    | ClaimCall(name: Name, key: PublicKey, bidOrder: seq<Party>, revealOrder: seq<Party>)

  /** The call does not hit an unchecked subtraction or division by zero
      (and the iteration orders of claim are genuine). */
  predicate CallOk(r: Registrar, env: Env, call: Call)
  {
    match call
    case BidCall(name, _) => BidClockOk(r, name, env.now)
    case RevealCall(name, amount, _) => amount == env.deposit ==> AuctionClockOk(r, name, env.now)
    case WithdrawCall(name) => AuctionClockOk(r, name, env.now)
    case ClaimCall(name, _, bidOrder, revealOrder) => ClaimArgsOk(r, name, env.now, bidOrder, revealOrder)
  }

  /** Dispatch a call to the operation it names. */
  function Run(r: Registrar, prim: Primitives, env: Env, call: Call): (o: Outcome)
    requires CallOk(r, env, call)
  {
    match call
    case BidCall(name, commitment) => PlaceBid(r, prim, name, commitment, env)
    case RevealCall(name, amount, salt) => Reveal(r, prim, name, amount, salt, env)
    case WithdrawCall(name) => Withdraw(r, name, env)
    case ClaimCall(name, key, bidOrder, revealOrder) => Claim(r, name, key, env, bidOrder, revealOrder)
  }

  datatype World = World(reg: Registrar, deposited: nat, transferred: nat)

  /** The world right after deployment. */
  function Genesis(now: Tick, auctionPeriod: Tick, revealPeriod: Tick): (w: World)
  {
    World(New(now, auctionPeriod, revealPeriod), 0, 0)
  }

  /** Apply one call. A call that would underflow aborts the transaction and
      leaves the world as it was. */
  function Apply(w: World, prim: Primitives, env: Env, call: Call): (w': World)
  {
    if !CallOk(w.reg, env, call) then w
    else
      var o := Run(w.reg, prim, env, call);
      var escrowed := if o.ok && call.RevealCall? then call.amount else 0;
      World(o.reg, w.deposited + escrowed, w.transferred + Transferred(o.effects))
  }

  /** Apply a sequence of calls in order. */
  function Replay(w: World, prim: Primitives, trace: seq<(Env, Call)>): (w': World)
    decreases |trace|
  {
    if trace == [] then w
    else Replay(Apply(w, prim, trace[0].0, trace[0].1), prim, trace[1..])
  }

  ghost function Amounts(bids: map<Party, Bid>): (amounts: map<Party, nat>)
  {
    map p | p in bids :: bids[p].amount
  }

  /** What one auction owes its bidders. */
  ghost function BidTotal(bids: map<Party, Bid>): (total: nat)
  {
    MapSum(Amounts(bids))
  }

  ghost function Totals(r: Registrar): (totals: map<Name, nat>)
  {
    map n | n in r.auctions :: BidTotal(r.auctions[n].bids)
  }

  /** What the registrar owes all bidders of all auctions. */
  ghost function Outstanding(r: Registrar): (owed: nat)
  {
    MapSum(Totals(r))
  }

  /** Custody is covered: everything paid out plus everything still owed
      does not exceed what was escrowed. */
  ghost predicate Solvent(w: World)
  {
    w.transferred + Outstanding(w.reg) <= w.deposited
  }

  // ----- bookkeeping of single updates -----

  lemma OutstandingPut(r: Registrar, name: Name, a: Auction)
    ensures name in r.auctions ==>
      Outstanding(Put(r, name, a)) + BidTotal(r.auctions[name].bids) == Outstanding(r) + BidTotal(a.bids)
    ensures name !in r.auctions ==>
      Outstanding(Put(r, name, a)) == Outstanding(r) + BidTotal(a.bids)
  {
    assert Totals(Put(r, name, a)) == Totals(r)[name := BidTotal(a.bids)];
    MapSumUpdate(Totals(r), name, BidTotal(a.bids));
  }

  lemma BidTotalSet(bids: map<Party, Bid>, p: Party, b: Bid)
    ensures p in bids ==> BidTotal(bids[p := b]) + bids[p].amount == BidTotal(bids) + b.amount
    ensures p !in bids ==> BidTotal(bids[p := b]) == BidTotal(bids) + b.amount
  {
    assert Amounts(bids[p := b]) == Amounts(bids)[p := b.amount];
    MapSumUpdate(Amounts(bids), p, b.amount);
  }

  /** After claim only the kept bid still holds value. */
  lemma ZeroOthersTotal(bids: map<Party, Bid>, keep: Party)
    ensures BidTotal(ZeroOthers(bids, keep)) == if keep in bids then bids[keep].amount else 0
  {
    var z := Amounts(ZeroOthers(bids, keep));
    if keep in bids {
      MapSumRemove(z, keep);
      MapSumZero(z - {keep});
    } else {
      MapSumZero(z);
    }
  }

  ghost function OthersAmounts(bids: map<Party, Bid>, keep: Party): (amounts: map<Party, nat>)
  {
    map p | p in bids :: if p == keep then 0 else bids[p].amount
  }

  lemma {:induction false} RefundsAlong(order: seq<Party>, bids: map<Party, Bid>, keep: Party)
    requires forall i :: 0 <= i < |order| ==> order[i] in bids
    ensures Transferred(Refunds(order, bids, keep)) == SumAlong(order, OthersAmounts(bids, keep))
  {
    if order != [] {
      var p := order[0];
      var head: seq<Effect> := if p == keep then [] else [Transfer(p, bids[p].amount)];
      assert Refunds(order, bids, keep) == head + Refunds(order[1..], bids, keep);
      TransferredAppend(head, Refunds(order[1..], bids, keep));
      RefundsAlong(order[1..], bids, keep);
      if p != keep {
        assert Transferred(head) == bids[p].amount by {
          assert head[1..] == [];
        }
      }
    }
  }

  lemma OthersAmountsSum(bids: map<Party, Bid>, keep: Party)
    ensures MapSum(OthersAmounts(bids, keep)) + (if keep in bids then bids[keep].amount else 0) == BidTotal(bids)
  {
    var z := OthersAmounts(bids, keep);
    if keep in bids {
      assert z == Amounts(bids)[keep := 0];
      MapSumUpdate(Amounts(bids), keep, 0);
    } else {
      assert z == Amounts(bids);
    }
  }

  /** The refunds of claim pay out exactly what every bidder but `keep` is owed. */
  lemma RefundsTotal(order: seq<Party>, bids: map<Party, Bid>, keep: Party)
    requires Enumerates(order, bids.Keys)
    ensures Transferred(Refunds(order, bids, keep)) + (if keep in bids then bids[keep].amount else 0) == BidTotal(bids)
  {
    var z := OthersAmounts(bids, keep);
    assert z.Keys == bids.Keys;
    assert forall k :: k in order <==> k in z;
    RefundsAlong(order, bids, keep);
    SumAlongIsMapSum(order, z);
    OthersAmountsSum(bids, keep);
  }

  // ----- per-operation accounting -----

  /** A bid never adds to what is owed (a re-bid can only zero the caller's entry). */
  lemma BidAccounting(r: Registrar, prim: Primitives, name: Name, commitment: Commitment, env: Env)
    requires BidClockOk(r, name, env.now)
    ensures Outstanding(PlaceBid(r, prim, name, commitment, env).reg) <= Outstanding(r)
  {
    var o := PlaceBid(r, prim, name, commitment, env);
    if o.ok {
      if name in r.auctions {
        var a := r.auctions[name];
        BidTotalSet(a.bids, env.caller, Bid(0, commitment));
        OutstandingPut(r, name, a.(bids := a.bids[env.caller := Bid(0, commitment)]));
      } else {
        var first := Auction(env.now, map[env.caller := Bid(0, commitment)], map[]);
        BidTotalSet(map[], env.caller, Bid(0, commitment));
        assert BidTotal(map[]) == 0;
        OutstandingPut(r, name, first);
      }
    }
  }

  /** A reveal adds at most the escrowed amount to what is owed, exactly that
      amount when the caller's entry held nothing yet. */
  lemma RevealAccounting(r: Registrar, prim: Primitives, name: Name, amount: Amount, salt: Salt, env: Env)
    requires amount == env.deposit ==> AuctionClockOk(r, name, env.now)
    ensures var o := Reveal(r, prim, name, amount, salt, env);
      && (o.ok ==> Outstanding(o.reg) + r.auctions[name].bids[env.caller].amount == Outstanding(r) + amount)
      && (!o.ok ==> Outstanding(o.reg) == Outstanding(r))
  {
    var o := Reveal(r, prim, name, amount, salt, env);
    if o.ok {
      var a := r.auctions[name];
      var b := a.bids[env.caller];
      BidTotalSet(a.bids, env.caller, b.(amount := amount));
      OutstandingPut(r, name, a.(bids := a.bids[env.caller := b.(amount := amount)],
                                 revealed := a.revealed[env.caller := amount]));
    }
  }

  /** Withdraw pays out exactly what it takes off the books. */
  lemma WithdrawAccounting(r: Registrar, name: Name, env: Env)
    requires AuctionClockOk(r, name, env.now)
    ensures var o := Withdraw(r, name, env);
      Transferred(o.effects) + Outstanding(o.reg) == Outstanding(r)
  {
    var o := Withdraw(r, name, env);
    if o.ok {
      var a := r.auctions[name];
      var b := a.bids[env.caller];
      BidTotalSet(a.bids, env.caller, b.(amount := 0));
      OutstandingPut(r, name, a.(bids := a.bids[env.caller := b.(amount := 0)]));
      assert Transferred(o.effects) == b.amount by {
        assert o.effects[1..] == [];
      }
    }
  }

  /** Claim pays out exactly what it takes off the books: every losing bid,
      while the winner's entry stays owed. */
  lemma ClaimAccounting(r: Registrar, name: Name, key: PublicKey, env: Env, bidOrder: seq<Party>, revealOrder: seq<Party>)
    requires ClaimArgsOk(r, name, env.now, bidOrder, revealOrder)
    ensures var o := Claim(r, name, key, env, bidOrder, revealOrder);
      Transferred(o.effects) + Outstanding(o.reg) == Outstanding(r)
    ensures var o := Claim(r, name, key, env, bidOrder, revealOrder);
      o.ok ==>
        var a := r.auctions[name];
        BidTotal(o.reg.auctions[name].bids) == (if env.caller in a.bids then a.bids[env.caller].amount else 0)
  {
    var o := Claim(r, name, key, env, bidOrder, revealOrder);
    if o.ok {
      var a := r.auctions[name];
      var created := [CreateAccount(name), AddFullAccessKey(name, key)];
      var refunds := Refunds(bidOrder, a.bids, env.caller);
      assert o.effects == created + refunds;
      TransferredAppend(created, refunds);
      assert Transferred(created) == 0 by {
        assert created[1..][1..] == [];
      }
      RefundsTotal(bidOrder, a.bids, env.caller);
      ZeroOthersTotal(a.bids, env.caller);
      OutstandingPut(r, name, a.(bids := ZeroOthers(a.bids, env.caller)));
    }
  }

  // ----- the invariant -----

  lemma ApplyKeepsSolvent(w: World, prim: Primitives, env: Env, call: Call)
    requires Solvent(w)
    ensures Solvent(Apply(w, prim, env, call))
  {
    if CallOk(w.reg, env, call) {
      match call
      case BidCall(name, commitment) => BidAccounting(w.reg, prim, name, commitment, env);
      case RevealCall(name, amount, salt) => RevealAccounting(w.reg, prim, name, amount, salt, env);
      case WithdrawCall(name) => WithdrawAccounting(w.reg, name, env);
      case ClaimCall(name, key, bidOrder, revealOrder) => ClaimAccounting(w.reg, name, key, env, bidOrder, revealOrder);
    }
  }

  lemma {:induction false} ReplayKeepsSolvent(w: World, prim: Primitives, trace: seq<(Env, Call)>)
    requires Solvent(w)
    ensures Solvent(Replay(w, prim, trace))
    decreases |trace|
  {
    if trace != [] {
      ApplyKeepsSolvent(w, prim, trace[0].0, trace[0].1);
      ReplayKeepsSolvent(Apply(w, prim, trace[0].0, trace[0].1), prim, trace[1..]);
    }
  }

  /** Conservation: from deployment on, whatever calls arrive in whatever
      order, the registrar never pays out more than its reveals escrowed. */
  lemma NeverPaysOutMoreThanEscrowed(now: Tick, auctionPeriod: Tick, revealPeriod: Tick, prim: Primitives, trace: seq<(Env, Call)>)
    ensures var w := Replay(Genesis(now, auctionPeriod, revealPeriod), prim, trace);
      w.transferred + Outstanding(w.reg) <= w.deposited
  {
    var g := Genesis(now, auctionPeriod, revealPeriod);
    assert Totals(g.reg) == map[];
    ReplayKeepsSolvent(g, prim, trace);
  }
}
