/** Properties of the complete registrar that relate its operations to each
    other and to a specification of the auction's outcome. The winner is
    identified by its position in the reveal order (the first to hold the
    highest value); the highest value and the price do not depend on that
    order. */
module ContractProps {
  import opened Types
  import opened Phases
  import opened Contract
  import TopTwo

  /** A successful claim is made by a revealer holding the largest revealed
      value, no revealer listed before it in the reveal order reaches that
      value, and some other revealer revealed the positive settlement price,
      which no other revealer exceeds. */
  lemma ClaimWinnerIsHighest(r: Registrar, name: Name, key: PublicKey, env: Env, bidOrder: seq<Party>, revealOrder: seq<Party>)
    requires ClaimArgsOk(r, name, env.now, bidOrder, revealOrder)
    ensures Claim(r, name, key, env, bidOrder, revealOrder).ok ==>
      && name in r.auctions && env.caller in r.auctions[name].revealed
      && var rv := r.auctions[name].revealed;
         var price := Winner(r.auctions[name], revealOrder).second;
         && (forall p :: p in rv ==> rv[p] <= rv[env.caller])
         && (forall i :: 0 <= i < |revealOrder| && revealOrder[i] == env.caller ==>
               forall k :: 0 <= k < i ==> rv[revealOrder[k]] < rv[env.caller])
         && price > 0
         && (exists q :: q in rv && q != env.caller && rv[q] == price)
         && (forall q :: q in rv && q != env.caller ==> rv[q] <= price)
  {
    if Claim(r, name, key, env, bidOrder, revealOrder).ok {
      WinnerIsHighest(r.auctions[name], revealOrder, env.caller);
    }
  }

  /** The scan's view of an auction: when the scanned price is positive,
      the scanned winner holds the largest revealed value, is the first in
      the order to hold it, and the price was revealed by someone else and
      bounds every other reveal. */
  lemma WinnerIsHighest(a: Auction, revealOrder: seq<Party>, caller: Party)
    requires Enumerates(revealOrder, a.revealed.Keys)
    requires Winner(a, revealOrder).second != 0 && Winner(a, revealOrder).winner == caller
    ensures caller in a.revealed
    ensures var rv := a.revealed;
      forall p :: p in rv ==> rv[p] <= rv[caller]
    ensures var rv := a.revealed;
      forall i :: 0 <= i < |revealOrder| && revealOrder[i] == caller ==>
        forall k :: 0 <= k < i ==> rv[revealOrder[k]] < rv[caller]
    ensures var rv := a.revealed;
      var price := Winner(a, revealOrder).second;
      && (exists q :: q in rv && q != caller && rv[q] == price)
      && (forall q :: q in rv && q != caller ==> rv[q] <= price)
  {
    var rv := a.revealed;
    var ps := RevealPairs(revealOrder, rv);
    var s := TopTwo.Fold(ps);
    TopTwo.FoldIsTopTwo(ps);
    assert s.second != 0;
    var w :| TopTwo.TopTwoAt(ps, s, w);
    assert revealOrder[w] == caller;
    forall p | p in rv ensures rv[p] <= rv[caller] {
      var k :| 0 <= k < |revealOrder| && revealOrder[k] == p;
      assert ps[k].1 <= s.highest;
    }
    forall i | 0 <= i < |revealOrder| && revealOrder[i] == caller
      ensures forall k :: 0 <= k < i ==> rv[revealOrder[k]] < rv[caller]
    {
      assert i == w;
      forall k | 0 <= k < i ensures rv[revealOrder[k]] < rv[caller] {
        assert ps[k].1 < s.highest;
      }
    }
    assert |ps| != 1;
    var j :| 0 <= j < |ps| && j != w && ps[j].1 == s.second;
    assert revealOrder[j] in rv && revealOrder[j] != caller && rv[revealOrder[j]] == s.second;
    forall q | q in rv && q != caller ensures rv[q] <= s.second {
      var k :| 0 <= k < |revealOrder| && revealOrder[k] == q;
      assert k != w;
      assert ps[k].1 <= s.second;
    }
  }

  /** Conversely, once the auction is settleable, a revealer whose value is
      strictly larger than every other reveal, when some other reveal is
      positive, can always claim, whatever the iteration order. */
  lemma ClaimSucceedsForStrictWinner(r: Registrar, name: Name, key: PublicKey, env: Env, bidOrder: seq<Party>, revealOrder: seq<Party>)
    requires ClaimArgsOk(r, name, env.now, bidOrder, revealOrder)
    requires name in r.auctions
    requires var a := r.auctions[name];
      Settleable(Elapsed(env.now, a.start), r.auctionPeriod, r.revealPeriod, |a.bids|, |a.revealed|)
    requires var rv := r.auctions[name].revealed;
      && env.caller in rv
      && (forall q :: q in rv && q != env.caller ==> rv[q] < rv[env.caller])
      && (exists q :: q in rv && q != env.caller && rv[q] > 0)
    ensures Claim(r, name, key, env, bidOrder, revealOrder).ok
  {
    var a := r.auctions[name];
    var rv := a.revealed;
    var ps := RevealPairs(revealOrder, rv);
    var s := TopTwo.Fold(ps);
    TopTwo.FoldIsTopTwo(ps);
    var c :| 0 <= c < |revealOrder| && revealOrder[c] == env.caller;
    assert ps != [];
    var w :| TopTwo.TopTwoAt(ps, s, w);
    assert ps[c].1 <= s.highest;
    assert ps[w].1 >= rv[env.caller];
    assert revealOrder[w] == env.caller;
    var q :| q in rv && q != env.caller && rv[q] > 0;
    var k :| 0 <= k < |revealOrder| && revealOrder[k] == q;
    assert k != w;
    assert ps[k].1 <= s.second;
  }

  /** The highest value and the settlement price do not depend on the order
      in which the reveals are scanned (only the winner among equal top
      values does). */
  lemma PriceIndependentOfOrder(a: Auction, order1: seq<Party>, order2: seq<Party>)
    requires Enumerates(order1, a.revealed.Keys)
    requires Enumerates(order2, a.revealed.Keys)
    ensures Winner(a, order1).highest == Winner(a, order2).highest
    ensures Winner(a, order1).second == Winner(a, order2).second
  {
    var rv := a.revealed;
    var ps1 := RevealPairs(order1, rv);
    var ps2 := RevealPairs(order2, rv);
    var s1 := TopTwo.Fold(ps1);
    var s2 := TopTwo.Fold(ps2);
    TopTwo.FoldIsTopTwo(ps1);
    TopTwo.FoldIsTopTwo(ps2);
    if rv.Keys == {} {
      assert order1 == [] && order2 == [];
    } else {
      var some :| some in rv;
      assert some in order1 && some in order2;
      var w1 :| TopTwo.TopTwoAt(ps1, s1, w1);
      var w2 :| TopTwo.TopTwoAt(ps2, s2, w2);
      var c1 := order1[w1];
      var c2 := order2[w2];
      // Every revealer appears in both orders, so each maximum bounds the other.
      forall p | p in rv
        ensures rv[p] <= s1.highest && rv[p] <= s2.highest
        ensures p != c1 ==> rv[p] <= s1.second
        ensures p != c2 ==> rv[p] <= s2.second
      {
        var i :| 0 <= i < |order1| && order1[i] == p;
        var j :| 0 <= j < |order2| && order2[j] == p;
        assert ps1[i].1 <= s1.highest && ps2[j].1 <= s2.highest;
        if p != c1 {
          assert i != w1;
          assert ps1[i].1 <= s1.second;
        }
        if p != c2 {
          assert j != w2;
          assert ps2[j].1 <= s2.second;
        }
      }
      assert c1 in rv && c2 in rv;
      assert s1.highest == s2.highest;
      EnumerationLength(order1, rv.Keys);
      EnumerationLength(order2, rv.Keys);
      if |ps1| > 1 {
        var j1 :| 0 <= j1 < |ps1| && j1 != w1 && ps1[j1].1 == s1.second;
        var j2 :| 0 <= j2 < |ps2| && j2 != w2 && ps2[j2].1 == s2.second;
        var d1 := order1[j1];
        var d2 := order2[j2];
        assert d1 != c1 && d2 != c2;
        if c1 == c2 {
          assert rv[d1] <= s2.second && rv[d2] <= s1.second;
        } else {
          assert rv[c2] <= s1.second && rv[c1] <= s2.second;
          assert rv[d1] <= s1.highest && rv[d2] <= s2.highest;
        }
      }
    }
  }

  /** Commit-reveal round trip: a commitment made with `commit(amount, salt)`
      is opened by revealing that amount and salt with the amount attached,
      at any block of the reveal window, and the reveal records the amount. */
  lemma BidThenRevealSucceeds(r: Registrar, prim: Primitives, name: Name, amount: Amount, salt: Salt, bidEnv: Env, env: Env)
    requires BidClockOk(r, name, bidEnv.now)
    requires PlaceBid(r, prim, name, prim.commit(amount, salt), bidEnv).ok
    requires env.caller == bidEnv.caller && env.deposit == amount
    requires var a := PlaceBid(r, prim, name, prim.commit(amount, salt), bidEnv).reg.auctions[name];
      a.start <= env.now && RevealWindow(Elapsed(env.now, a.start), r.auctionPeriod, r.revealPeriod)
    ensures var r1 := PlaceBid(r, prim, name, prim.commit(amount, salt), bidEnv).reg;
      var o := Reveal(r1, prim, name, amount, salt, env);
      && o.ok
      && o.reg.auctions[name].bids[env.caller] == Bid(amount, prim.commit(amount, salt))
      && o.reg.auctions[name].revealed[env.caller] == amount
  {
  }

  /** Once anyone has revealed, no later block accepts a bid on that name:
      the bid window closes before the reveal window opens. */
  lemma NoBidAfterReveal(r: Registrar, prim: Primitives, name: Name, amount: Amount, salt: Salt, env: Env,
                         commitment: Commitment, later: Env)
    requires AuctionClockOk(r, name, env.now)
    requires Reveal(r, prim, name, amount, salt, env).ok
    requires env.now <= later.now
    ensures var r1 := Reveal(r, prim, name, amount, salt, env).reg;
      BidClockOk(r1, name, later.now) && !PlaceBid(r1, prim, name, commitment, later).ok
  {
  }

  /** Withdraw pays a recorded amount once: a second withdraw by the same
      party, at any block, pays nothing more, so both together pay exactly
      the amount that was recorded. */
  lemma WithdrawTwicePaysOnce(r: Registrar, name: Name, env: Env, again: Env)
    requires AuctionClockOk(r, name, env.now)
    requires Withdraw(r, name, env).ok
    requires again.caller == env.caller
    requires r.auctions[name].start <= again.now
    ensures var o1 := Withdraw(r, name, env);
      var o2 := Withdraw(o1.reg, name, again);
      && Transferred(o1.effects) == r.auctions[name].bids[env.caller].amount
      && Transferred(o2.effects) == 0
  {
  }

  /** After a successful claim a losing bidder's withdraw pays nothing, while
      the winner can withdraw, at that block or any later one, everything it
      escrowed: the claim itself burns nothing. */
  lemma ClaimLeavesOnlyWinnerEscrow(r: Registrar, name: Name, key: PublicKey, env: Env,
                                    bidOrder: seq<Party>, revealOrder: seq<Party>, later: Env)
    requires ClaimArgsOk(r, name, env.now, bidOrder, revealOrder)
    requires AuctionClockOk(r, name, later.now)
    ensures var o1 := Claim(r, name, key, env, bidOrder, revealOrder);
      var o := Withdraw(o1.reg, name, later);
      o1.ok ==>
        && (later.caller != env.caller ==> Transferred(o.effects) == 0)
        && (later.caller == env.caller && o.ok ==>
              env.caller in r.auctions[name].bids &&
              Transferred(o.effects) == r.auctions[name].bids[env.caller].amount)
    ensures var o1 := Claim(r, name, key, env, bidOrder, revealOrder);
      var o := Withdraw(o1.reg, name, later);
      o1.ok && WellFormed(r) && env.now <= later.now && later.caller == env.caller ==>
        && o.ok
        && Transferred(o.effects) == r.auctions[name].bids[env.caller].amount
  {
    if Claim(r, name, key, env, bidOrder, revealOrder).ok {
      ClaimWinnerIsHighest(r, name, key, env, bidOrder, revealOrder);
    }
  }

  /** A claim does not close the auction: the bids map keeps its keys and
      the reveals stay, so the same winner's claim succeeds again and again
      promises to create the account and add the key. */
  lemma ClaimRepeatable(r: Registrar, name: Name, key: PublicKey, env: Env, bidOrder: seq<Party>, revealOrder: seq<Party>)
    requires ClaimArgsOk(r, name, env.now, bidOrder, revealOrder)
    ensures var o1 := Claim(r, name, key, env, bidOrder, revealOrder);
      o1.ok ==>
        && ClaimArgsOk(o1.reg, name, env.now, bidOrder, revealOrder)
        && var o2 := Claim(o1.reg, name, key, env, bidOrder, revealOrder);
           && o2.ok
           && o2.effects[..2] == [CreateAccount(name), AddFullAccessKey(name, key)]
  {
    var o1 := Claim(r, name, key, env, bidOrder, revealOrder);
    if o1.ok {
      var a := r.auctions[name];
      var a' := o1.reg.auctions[name];
      assert a'.bids.Keys == a.bids.Keys && a'.revealed == a.revealed && a'.start == a.start;
      assert |a'.bids| == |a.bids| by {
        assert |a'.bids| == |a'.bids.Keys| && |a.bids| == |a.bids.Keys|;
      }
      assert Winner(a', revealOrder) == Winner(a, revealOrder);
    }
  }

  /** The contract accepts the same reveal twice: the second call succeeds
      and records the amount again instead of adding to it, so the escrow
      attached to the first call is no longer owed to anyone. */
  lemma RepeatRevealAccepted(r: Registrar, prim: Primitives, name: Name, amount: Amount, salt: Salt, env: Env)
    requires AuctionClockOk(r, name, env.now)
    requires Reveal(r, prim, name, amount, salt, env).ok
    ensures var r1 := Reveal(r, prim, name, amount, salt, env).reg;
      var o := Reveal(r1, prim, name, amount, salt, env);
      o.ok && o.reg == r1 && o.reg.auctions[name].bids[env.caller].amount == amount
  {
    var r1 := Reveal(r, prim, name, amount, salt, env).reg;
    var a1 := r1.auctions[name];
    var a2 := Reveal(r1, prim, name, amount, salt, env).reg.auctions[name];
    assert a2.bids == a1.bids;
    assert a2.revealed == a1.revealed;
    assert a2 == a1;
    assert r1.auctions[name := a2] == r1.auctions;
  }

  /** A successful claim refunds every other bidder exactly once: the refund
      transfers have no repeats and there is one for each bid except the
      winner's own. */
  lemma ClaimRefundsEachOnce(r: Registrar, name: Name, key: PublicKey, env: Env, bidOrder: seq<Party>, revealOrder: seq<Party>)
    requires ClaimArgsOk(r, name, env.now, bidOrder, revealOrder)
    ensures var o := Claim(r, name, key, env, bidOrder, revealOrder);
      o.ok ==>
        var a := r.auctions[name];
        && Distinct(o.effects[2..])
        && |o.effects| == 2 + |a.bids| - (if env.caller in a.bids then 1 else 0)
  {
    var o := Claim(r, name, key, env, bidOrder, revealOrder);
    if o.ok {
      var a := r.auctions[name];
      var refunds := Refunds(bidOrder, a.bids, env.caller);
      assert o.effects == [CreateAccount(name), AddFullAccessKey(name, key)] + refunds;
      assert o.effects[2..] == refunds;
      RefundsOfEnumeration(bidOrder, a.bids, env.caller);
    }
  }

  /** Ties included: once the auction is settleable, the revealer holding the
      largest value that no revealer before it in the reveal order reaches
      can claim, provided some other reveal is positive. With
      `ClaimWinnerIsHighest` this characterises a successful claim exactly. */
  lemma ClaimSucceedsForFirstMaximum(r: Registrar, name: Name, key: PublicKey, env: Env, bidOrder: seq<Party>, revealOrder: seq<Party>)
    requires ClaimArgsOk(r, name, env.now, bidOrder, revealOrder)
    requires name in r.auctions
    requires var a := r.auctions[name];
      Settleable(Elapsed(env.now, a.start), r.auctionPeriod, r.revealPeriod, |a.bids|, |a.revealed|)
    requires var rv := r.auctions[name].revealed;
      && env.caller in rv
      && (forall q :: q in rv ==> rv[q] <= rv[env.caller])
      && (forall i :: 0 <= i < |revealOrder| && revealOrder[i] == env.caller ==>
            forall k :: 0 <= k < i ==> rv[revealOrder[k]] < rv[env.caller])
      && (exists q :: q in rv && q != env.caller && rv[q] > 0)
    ensures Claim(r, name, key, env, bidOrder, revealOrder).ok
  {
    var a := r.auctions[name];
    var rv := a.revealed;
    var ps := RevealPairs(revealOrder, rv);
    var s := TopTwo.Fold(ps);
    TopTwo.FoldIsTopTwo(ps);
    var c :| 0 <= c < |revealOrder| && revealOrder[c] == env.caller;
    assert ps != [];
    var w :| TopTwo.TopTwoAt(ps, s, w);
    assert ps[c].1 == rv[env.caller] && ps[c].1 <= s.highest;
    assert ps[w].1 == rv[revealOrder[w]] <= rv[env.caller];
    assert s.highest == ps[c].1;
    assert forall k :: 0 <= k < c ==> ps[k].1 < ps[c].1;
    assert w == c;
    var q :| q in rv && q != env.caller && rv[q] > 0;
    var k :| 0 <= k < |revealOrder| && revealOrder[k] == q;
    assert k != w;
    assert ps[k].1 <= s.second;
  }
}
