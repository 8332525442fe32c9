/** The complete registrar (contracts/rust/src/lib.rs) as a state machine:
    each public operation is a pure function of the registrar state, the
    call environment and the operation's arguments, returning whether it
    succeeded, the new state and the promises it issued. A rejection always
    returns the state unchanged and issues nothing. */
module Contract {
  import opened Types
  import opened Phases
  import TopTwo

  /** Every revealer is a bidder of the same auction. */
  predicate WellFormed(r: Registrar)
  {
    forall n :: n in r.auctions ==> r.auctions[n].revealed.Keys <= r.auctions[n].bids.Keys
  }

  /** What an operation on `name` may change: only that name's auction, and
      never the schedule or an existing auction's start block. */
  predicate Evolves(r: Registrar, r': Registrar, name: Name)
  {
    && r'.start == r.start
    && r'.auctionPeriod == r.auctionPeriod
    && r'.revealPeriod == r.revealPeriod
    && r'.auctions - {name} == r.auctions - {name}
    && (name in r.auctions ==> name in r'.auctions && r'.auctions[name].start == r.auctions[name].start)
  }

  /** The contract subtracts an auction's start block from the current one
      without a check, so the clock must not run behind it. */
  predicate AuctionClockOk(r: Registrar, name: Name, now: Tick)
  {
    name in r.auctions ==> r.auctions[name].start <= now
  }

  /** `bid` on a fresh name also subtracts the launch block and divides by
      the auction period. */
  predicate BidClockOk(r: Registrar, name: Name, now: Tick)
  {
    && AuctionClockOk(r, name, now)
    && (name !in r.auctions ==> r.start <= now && r.auctionPeriod > 0)
  }

  /** `claim` additionally iterates both maps of the auction; the orders in
      which the hash maps yield their keys are passed in. */
  predicate ClaimArgsOk(r: Registrar, name: Name, now: Tick, bidOrder: seq<Party>, revealOrder: seq<Party>)
  {
    && AuctionClockOk(r, name, now)
    && (name in r.auctions ==>
          && Enumerates(bidOrder, r.auctions[name].bids.Keys)
          && Enumerates(revealOrder, r.auctions[name].revealed.Keys))
  }

  function Put(r: Registrar, name: Name, a: Auction): (r': Registrar)
  {
    r.(auctions := r.auctions[name := a])
  }

  /** `Registrar::new`: launched at the current block with no auctions. */
  function New(now: Tick, auctionPeriod: Tick, revealPeriod: Tick): (r: Registrar)
    ensures r.start == now && r.auctionPeriod == auctionPeriod && r.revealPeriod == revealPeriod
    ensures r.auctions == map[]
    ensures WellFormed(r)
  {
    Registrar(now, auctionPeriod, revealPeriod, map[])
  }

  /** `bid`: record a sealed commitment for the caller. */
  function PlaceBid(r: Registrar, prim: Primitives, name: Name, commitment: Commitment, env: Env): (o: Outcome)
    requires BidClockOk(r, name, env.now)
    ensures o.effects == []
    ensures !o.ok ==> o.reg == r
    ensures o.ok <==>
      if name in r.auctions then BidWindow(Elapsed(env.now, r.auctions[name].start), r.auctionPeriod)
      else NameOpen(prim.nameHash(name), Weeks(env.now, r.start, r.auctionPeriod))
    ensures Evolves(r, o.reg, name)
    ensures o.ok ==> name in o.reg.auctions
    ensures o.ok && name !in r.auctions ==>
      o.reg.auctions[name] == Auction(env.now, map[env.caller := Bid(0, commitment)], map[])
    ensures o.ok && name in r.auctions ==>
      && o.reg.auctions[name].bids == r.auctions[name].bids[env.caller := Bid(0, commitment)]
      && o.reg.auctions[name].revealed == r.auctions[name].revealed
    ensures WellFormed(r) ==> WellFormed(o.reg)
  {
    var newBid := Bid(0, commitment);
    if name in r.auctions then
      var a := r.auctions[name];
      if env.now - a.start > r.auctionPeriod then Rejected(r)
      else Outcome(true, Put(r, name, a.(bids := a.bids[env.caller := newBid])), [])
    else
      var weeks := (env.now - r.start) / r.auctionPeriod;
      if prim.nameHash(name) % Cohorts > weeks then Rejected(r)
      else Outcome(true, Put(r, name, Auction(env.now, map[env.caller := newBid], map[])), [])
  }

  /** `reveal`: open the caller's commitment and record the escrowed amount. */
  function Reveal(r: Registrar, prim: Primitives, name: Name, amount: Amount, salt: Salt, env: Env): (o: Outcome)
    requires amount == env.deposit ==> AuctionClockOk(r, name, env.now)
    ensures o.effects == []
    ensures !o.ok ==> o.reg == r
    ensures o.ok <==>
      && env.deposit == amount
      && name in r.auctions
      && RevealWindow(Elapsed(env.now, r.auctions[name].start), r.auctionPeriod, r.revealPeriod)
      && env.caller in r.auctions[name].bids
      && r.auctions[name].bids[env.caller].commitment == prim.commit(amount, salt)
    ensures Evolves(r, o.reg, name)
    ensures o.ok ==>
      var a := r.auctions[name];
      o.reg.auctions[name] == a.(bids := a.bids[env.caller := a.bids[env.caller].(amount := amount)],
                                 revealed := a.revealed[env.caller := amount])
    ensures WellFormed(r) ==> WellFormed(o.reg)
  {
    if amount != env.deposit then Rejected(r)
    else if name !in r.auctions then Rejected(r)
    else
      var a := r.auctions[name];
      if env.now - a.start <= r.auctionPeriod then Rejected(r)
      else if env.now - a.start > r.auctionPeriod + r.revealPeriod then Rejected(r)
      else if env.caller !in a.bids then Rejected(r)
      else
        var b := a.bids[env.caller];
        if b.commitment != prim.commit(amount, salt) then Rejected(r)
        else Outcome(true, Put(r, name, a.(bids := a.bids[env.caller := b.(amount := amount)],
                                           revealed := a.revealed[env.caller := amount])), [])
  }

  /** `withdraw`: pay the caller's recorded amount back and zero it. */
  function Withdraw(r: Registrar, name: Name, env: Env): (o: Outcome)
    requires AuctionClockOk(r, name, env.now)
    ensures !o.ok ==> o.reg == r && o.effects == []
    ensures o.ok <==>
      && name in r.auctions
      && Settleable(Elapsed(env.now, r.auctions[name].start), r.auctionPeriod, r.revealPeriod,
                    |r.auctions[name].bids|, |r.auctions[name].revealed|)
      && env.caller in r.auctions[name].bids
    ensures Evolves(r, o.reg, name)
    ensures o.ok ==>
      var a := r.auctions[name];
      && o.effects == [Transfer(env.caller, a.bids[env.caller].amount)]
      && o.reg.auctions[name] == a.(bids := a.bids[env.caller := a.bids[env.caller].(amount := 0)])
    ensures WellFormed(r) ==> WellFormed(o.reg)
  {
    if name !in r.auctions then Rejected(r)
    else
      var a := r.auctions[name];
      if env.now - a.start <= r.auctionPeriod then Rejected(r)
      else if env.now - a.start <= r.auctionPeriod + r.revealPeriod && |a.bids| != |a.revealed| then Rejected(r)
      else if env.caller !in a.bids then Rejected(r)
      else
        var b := a.bids[env.caller];
        Outcome(true, Put(r, name, a.(bids := a.bids[env.caller := b.(amount := 0)])), [Transfer(env.caller, b.amount)])
  }

  /** The reveals in the order the map yields them. */
  function RevealPairs(order: seq<Party>, revealed: map<Party, Amount>): (ps: seq<(Party, Amount)>)
    requires forall i :: 0 <= i < |order| ==> order[i] in revealed
  {
    seq(|order|, i requires 0 <= i < |order| => (order[i], revealed[order[i]]))
  }

  /** Result of the winner scan of an auction for a given reveal order. */
  function Winner(a: Auction, revealOrder: seq<Party>): (s: TopTwo.Scan)
    requires forall i :: 0 <= i < |revealOrder| ==> revealOrder[i] in a.revealed
  {
    TopTwo.Fold(RevealPairs(revealOrder, a.revealed))
  }

  /** Every bid except `keep`'s with its amount set to 0. */
  function ZeroOthers(bids: map<Party, Bid>, keep: Party): (zeroed: map<Party, Bid>)
  {
    map p | p in bids :: if p == keep then bids[p] else bids[p].(amount := 0)
  }

  /** The refund transfers of `claim`, one per bidder other than `keep`, in
      the order the bids map yields them. */
  function Refunds(order: seq<Party>, bids: map<Party, Bid>, keep: Party): (es: seq<Effect>)
    requires forall i :: 0 <= i < |order| ==> order[i] in bids
    ensures forall e :: e in es ==> e.Transfer? && e.to in bids && e.to != keep && e.amount == bids[e.to].amount
    ensures forall i :: 0 <= i < |order| && order[i] != keep ==> Transfer(order[i], bids[order[i]].amount) in es
  {
    if order == [] then []
    else
      var p := order[0];
      var head: seq<Effect> := if p == keep then [] else [Transfer(p, bids[p].amount)];
      var tail := Refunds(order[1..], bids, keep);
      assert forall i :: 1 <= i < |order| ==> order[i] == order[1..][i - 1];
      head + tail
  }

  /** The refunds go only to bidders listed in the order. */
  lemma {:induction false} RefundsListed(order: seq<Party>, bids: map<Party, Bid>, keep: Party)
    requires forall i :: 0 <= i < |order| ==> order[i] in bids
    ensures forall e :: e in Refunds(order, bids, keep) ==> e.to in order
  {
    if order != [] {
      var p := order[0];
      var rest := order[1..];
      assert forall i :: 0 <= i < |rest| ==> rest[i] == order[i + 1];
      RefundsListed(rest, bids, keep);
      var head: seq<Effect> := if p == keep then [] else [Transfer(p, bids[p].amount)];
      var tail := Refunds(rest, bids, keep);
      assert Refunds(order, bids, keep) == head + tail;
      forall e | e in head + tail ensures e.to in order {
        if e in tail {
          var k :| 0 <= k < |rest| && rest[k] == e.to;
          assert order[k + 1] == e.to;
        }
      }
    }
  }

  /** Over an order without repeats, no bidder is refunded twice and there is
      one refund for each listed bidder other than `keep`. */
  lemma {:induction false} RefundsOnce(order: seq<Party>, bids: map<Party, Bid>, keep: Party)
    requires forall i :: 0 <= i < |order| ==> order[i] in bids
    requires Distinct(order)
    ensures var es := Refunds(order, bids, keep);
      Distinct(es) && |es| == |order| - (if keep in order then 1 else 0)
  {
    if order != [] {
      var p := order[0];
      var rest := order[1..];
      assert forall i :: 0 <= i < |rest| ==> rest[i] == order[i + 1];
      assert Distinct(rest) by {
        forall i, j | 0 <= i < j < |rest| ensures rest[i] != rest[j] {
          assert rest[i] == order[i + 1] && rest[j] == order[j + 1];
        }
      }
      RefundsOnce(rest, bids, keep);
      RefundsListed(rest, bids, keep);
      var head: seq<Effect> := if p == keep then [] else [Transfer(p, bids[p].amount)];
      var tail := Refunds(rest, bids, keep);
      assert Refunds(order, bids, keep) == head + tail;
      assert p !in rest;
      assert keep in order <==> p == keep || keep in rest;
      assert forall e :: e in tail ==> e.to != p;
      forall i, j | 0 <= i < j < |head + tail| ensures (head + tail)[i] != (head + tail)[j] {
        if i < |head| {
          assert (head + tail)[j] in tail;
        } else {
          assert (head + tail)[i] == tail[i - |head|] && (head + tail)[j] == tail[j - |head|];
        }
      }
    }
  }

  /** Over a genuine enumeration of the bids, every bidder other than `keep`
      is refunded exactly once and no one else is. */
  lemma RefundsOfEnumeration(order: seq<Party>, bids: map<Party, Bid>, keep: Party)
    requires Enumerates(order, bids.Keys)
    ensures var es := Refunds(order, bids, keep);
      && (forall p :: p in bids && p != keep ==> Transfer(p, bids[p].amount) in es)
      && Distinct(es)
      && |es| == |bids| - (if keep in bids then 1 else 0)
  {
    RefundsOnce(order, bids, keep);
    EnumerationLength(order, bids.Keys);
    assert |bids| == |bids.Keys|;
    assert keep in order <==> keep in bids;
    forall p | p in bids && p != keep ensures Transfer(p, bids[p].amount) in Refunds(order, bids, keep) {
      var i :| 0 <= i < |order| && order[i] == p;
    }
  }

  /** `claim`: award the name to the highest revealer, provided the
      second-highest revealed value is positive, and refund every other bid. */
  function Claim(r: Registrar, name: Name, key: PublicKey, env: Env, bidOrder: seq<Party>, revealOrder: seq<Party>): (o: Outcome)
    requires ClaimArgsOk(r, name, env.now, bidOrder, revealOrder)
    ensures !o.ok ==> o.reg == r && o.effects == []
    ensures o.ok <==>
      && name in r.auctions
      && Settleable(Elapsed(env.now, r.auctions[name].start), r.auctionPeriod, r.revealPeriod,
                    |r.auctions[name].bids|, |r.auctions[name].revealed|)
      && Winner(r.auctions[name], revealOrder).second != 0
      && Winner(r.auctions[name], revealOrder).winner == env.caller
    ensures Evolves(r, o.reg, name)
    ensures o.ok ==>
      var a := r.auctions[name];
      && |o.effects| >= 2
      && o.effects[0] == CreateAccount(name)
      && o.effects[1] == AddFullAccessKey(name, key)
      && (forall e :: e in o.effects[2..] ==>
            e.Transfer? && e.to in a.bids && e.to != env.caller && e.amount == a.bids[e.to].amount)
      && (forall p :: p in a.bids && p != env.caller ==> Transfer(p, a.bids[p].amount) in o.effects[2..])
    ensures o.ok ==>
      var a := r.auctions[name];
      var a' := o.reg.auctions[name];
      && a'.start == a.start
      && a'.revealed == a.revealed
      && a'.bids.Keys == a.bids.Keys
      && (env.caller in a.bids ==> a'.bids[env.caller] == a.bids[env.caller])
      && (forall p :: p in a.bids && p != env.caller ==> a'.bids[p] == a.bids[p].(amount := 0))
    ensures WellFormed(r) ==> WellFormed(o.reg)
  {
    if name !in r.auctions then Rejected(r)
    else
      var a := r.auctions[name];
      if env.now - a.start <= r.auctionPeriod then Rejected(r)
      else if env.now - a.start <= r.auctionPeriod + r.revealPeriod && |a.bids| != |a.revealed| then Rejected(r)
      else
        var s := Winner(a, revealOrder);
        if s.second == 0 then Rejected(r)
        else if s.winner != env.caller then Rejected(r)
        else
          var created := [CreateAccount(name), AddFullAccessKey(name, key)];
          var refunds := Refunds(bidOrder, a.bids, env.caller);
          assert (created + refunds)[2..] == refunds;
          Outcome(true, Put(r, name, a.(bids := ZeroOthers(a.bids, env.caller))), created + refunds)
  }
}
