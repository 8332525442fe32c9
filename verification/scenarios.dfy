/** Concrete runs of the complete registrar: launched at block 2 with a
    30-block auction period and a 35-block reveal period, two bidders bid at
    block 1292 and reveal at block 1323. The name's hash is left open; only
    its cohort must have come by week 43, the week of block 1292. */
module Scenarios {
  import opened Types
  import opened Phases
  import opened Contract
  import TopTwo

  const Carol: Party := "carol.near"
  const Bob: Party := "bob.near"
  const Auctioned: Name := "auctioned_id1.near"
  const Salt123: Salt := "123"

  /** The registrar after both bids and both reveals. */
  function AfterReveals(prim: Primitives, carolAmount: Amount, bobAmount: Amount): (r: Registrar)
    requires Slot(prim.nameHash(Auctioned)) <= 43
  {
    var r0 := New(2, 30, 35);
    var r1 := PlaceBid(r0, prim, Auctioned, prim.commit(carolAmount, Salt123), Env(1292, Carol, 0)).reg;
    var r2 := PlaceBid(r1, prim, Auctioned, prim.commit(bobAmount, Salt123), Env(1292, Bob, 0)).reg;
    var r3 := Reveal(r2, prim, Auctioned, carolAmount, Salt123, Env(1323, Carol, carolAmount)).reg;
    Reveal(r3, prim, Auctioned, bobAmount, Salt123, Env(1323, Bob, bobAmount)).reg
  }

  /** Both bids are accepted, both reveals succeed, and the auction ends up
      with both amounts recorded. */
  lemma AfterRevealsShape(prim: Primitives, c: Amount, b: Amount)
    requires Slot(prim.nameHash(Auctioned)) <= 43
    ensures BothRevealed(AfterReveals(prim, c, b), prim, c, b)
  {
    assert Carol != Bob;
    var r0 := New(2, 30, 35);
    var o1 := PlaceBid(r0, prim, Auctioned, prim.commit(c, Salt123), Env(1292, Carol, 0));
    assert o1.ok;
    var o2 := PlaceBid(o1.reg, prim, Auctioned, prim.commit(b, Salt123), Env(1292, Bob, 0));
    assert o2.ok;
    assert o2.reg.auctions[Auctioned] == Auction(1292,
      map[Carol := Bid(0, prim.commit(c, Salt123)), Bob := Bid(0, prim.commit(b, Salt123))], map[]);
    var o3 := Reveal(o2.reg, prim, Auctioned, c, Salt123, Env(1323, Carol, c));
    assert o3.ok;
    assert o3.reg.auctions[Auctioned] == Auction(1292,
      map[Carol := Bid(c, prim.commit(c, Salt123)), Bob := Bid(0, prim.commit(b, Salt123))], map[Carol := c]);
    var o4 := Reveal(o3.reg, prim, Auctioned, b, Salt123, Env(1323, Bob, b));
    assert o4.ok;
  }

  /** The registrar state the two-bidder runs reach: both bids revealed with
      the given amounts. */
  predicate BothRevealed(r: Registrar, prim: Primitives, c: Amount, b: Amount)
  {
    && r.auctionPeriod == 30 && r.revealPeriod == 35
    && Auctioned in r.auctions
    && r.auctions[Auctioned] == Auction(1292,
         map[Carol := Bid(c, prim.commit(c, Salt123)), Bob := Bid(b, prim.commit(b, Salt123))],
         map[Carol := c, Bob := b])
  }

  /** In that state both bidders have revealed, so at block 1323 the
      auction is settleable. */
  lemma BothRevealedSettleable(r: Registrar, prim: Primitives, c: Amount, b: Amount)
    requires BothRevealed(r, prim, c, b)
    ensures var a := r.auctions[Auctioned];
      && a.bids.Keys == {Carol, Bob} && a.revealed.Keys == {Carol, Bob}
      && Settleable(Elapsed(1323, a.start), r.auctionPeriod, r.revealPeriod, |a.bids|, |a.revealed|)
  {
    var a := r.auctions[Auctioned];
    assert a.bids.Keys == {Carol, Bob} == a.revealed.Keys;
    assert |a.bids| == |a.bids.Keys| && |a.revealed| == |a.revealed.Keys|;
  }

  /** The scan over two reveals is two steps from the initial state. */
  lemma FoldPair(p: (Party, Amount), q: (Party, Amount))
    ensures TopTwo.Fold([p, q]) == TopTwo.Step(TopTwo.Step(TopTwo.Initial, p.0, p.1), q.0, q.1)
  {
    assert [p][..0] == [];
    assert TopTwo.Fold([p]) == TopTwo.Step(TopTwo.Initial, p.0, p.1);
    assert [p, q][..1] == [p];
  }

  /** The refunds over two bidders, one transfer for each that is not kept. */
  lemma RefundsPair(p: Party, q: Party, bids: map<Party, Bid>, keep: Party)
    requires p in bids && q in bids
    ensures Refunds([p, q], bids, keep) ==
      (if p == keep then [] else [Transfer(p, bids[p].amount)]) +
      (if q == keep then [] else [Transfer(q, bids[q].amount)])
  {
    assert [q][1..] == [];
    assert Refunds([q], bids, keep) == (if q == keep then [] else [Transfer(q, bids[q].amount)]);
    assert [p, q][1..] == [q];
  }

  /** For either reveal order the scan finds Bob at 1005 with 1000 second. */
  lemma SecondPriceWinner(r: Registrar, prim: Primitives, revealOrder: seq<Party>)
    requires BothRevealed(r, prim, 1000, 1005)
    requires revealOrder == [Carol, Bob] || revealOrder == [Bob, Carol]
    ensures Enumerates(revealOrder, r.auctions[Auctioned].revealed.Keys)
    ensures Winner(r.auctions[Auctioned], revealOrder) == TopTwo.Scan(true, 1005, 1000, Bob)
  {
    var a := r.auctions[Auctioned];
    assert a.revealed.Keys == {Carol, Bob};
    var ps := RevealPairs(revealOrder, a.revealed);
    if revealOrder == [Carol, Bob] {
      assert ps == [(Carol, 1000), (Bob, 1005)];
      FoldPair((Carol, 1000), (Bob, 1005));
    } else {
      assert ps == [(Bob, 1005), (Carol, 1000)];
      FoldPair((Bob, 1005), (Carol, 1000));
    }
  }

  /** Claiming from the state where Carol revealed 1000 and Bob 1005: Bob's
      claim is accepted and keeps his amount on record while Carol's is
      zeroed. */
  lemma SecondPriceClaim(r: Registrar, prim: Primitives, key: PublicKey, bidOrder: seq<Party>, revealOrder: seq<Party>)
    requires BothRevealed(r, prim, 1000, 1005)
    requires bidOrder == [Carol, Bob] || bidOrder == [Bob, Carol]
    requires revealOrder == [Carol, Bob] || revealOrder == [Bob, Carol]
    ensures ClaimArgsOk(r, Auctioned, 1323, bidOrder, revealOrder)
    ensures Winner(r.auctions[Auctioned], revealOrder) == TopTwo.Scan(true, 1005, 1000, Bob)
    ensures var o := Claim(r, Auctioned, key, Env(1323, Bob, 0), bidOrder, revealOrder);
      && o.ok
      && o.reg.auctions[Auctioned].bids[Bob].amount == 1005
      && o.reg.auctions[Auctioned].bids[Carol].amount == 0
  {
    assert Carol != Bob;
    BothRevealedSettleable(r, prim, 1000, 1005);
    SecondPriceWinner(r, prim, revealOrder);
  }

  /** The promises of that claim: create the account, add the key, refund
      Carol's 1000 and nothing else. */
  lemma SecondPriceClaimEffects(r: Registrar, prim: Primitives, key: PublicKey, bidOrder: seq<Party>, revealOrder: seq<Party>)
    requires BothRevealed(r, prim, 1000, 1005)
    requires bidOrder == [Carol, Bob] || bidOrder == [Bob, Carol]
    requires revealOrder == [Carol, Bob] || revealOrder == [Bob, Carol]
    ensures ClaimArgsOk(r, Auctioned, 1323, bidOrder, revealOrder)
    ensures Claim(r, Auctioned, key, Env(1323, Bob, 0), bidOrder, revealOrder).effects ==
      [CreateAccount(Auctioned), AddFullAccessKey(Auctioned, key), Transfer(Carol, 1000)]
  {
    assert Carol != Bob;
    SecondPriceClaim(r, prim, key, bidOrder, revealOrder);
    var a := r.auctions[Auctioned];
    RefundsPair(bidOrder[0], bidOrder[1], a.bids, Bob);
    assert bidOrder == [bidOrder[0], bidOrder[1]];
    assert Refunds(bidOrder, a.bids, Bob) == [Transfer(Carol, 1000)];
  }

  /** In the same state the losing bidder's claim is refused. */
  lemma SecondPriceLoserRefused(r: Registrar, prim: Primitives, key: PublicKey, bidOrder: seq<Party>, revealOrder: seq<Party>)
    requires BothRevealed(r, prim, 1000, 1005)
    requires bidOrder == [Carol, Bob] || bidOrder == [Bob, Carol]
    requires revealOrder == [Carol, Bob] || revealOrder == [Bob, Carol]
    ensures ClaimArgsOk(r, Auctioned, 1323, bidOrder, revealOrder)
    ensures !Claim(r, Auctioned, key, Env(1323, Carol, 0), bidOrder, revealOrder).ok
  {
    assert Carol != Bob;
    BothRevealedSettleable(r, prim, 1000, 1005);
    SecondPriceWinner(r, prim, revealOrder);
  }

  /** Claiming and withdrawing from the state where both revealed 0. */
  lemma ZeroRevealsSettle(r: Registrar, prim: Primitives, key: PublicKey, bidOrder: seq<Party>, revealOrder: seq<Party>, caller: Party)
    requires BothRevealed(r, prim, 0, 0)
    requires bidOrder == [Carol, Bob] || bidOrder == [Bob, Carol]
    requires revealOrder == [Carol, Bob] || revealOrder == [Bob, Carol]
    ensures ClaimArgsOk(r, Auctioned, 1323, bidOrder, revealOrder)
    ensures !Claim(r, Auctioned, key, Env(1323, caller, 0), bidOrder, revealOrder).ok
    ensures Withdraw(r, Auctioned, Env(1323, Carol, 0)).ok
    ensures Withdraw(r, Auctioned, Env(1323, Carol, 0)).effects == [Transfer(Carol, 0)]
  {
    assert Carol != Bob;
    BothRevealedSettleable(r, prim, 0, 0);
    var a := r.auctions[Auctioned];
    var ps := RevealPairs(revealOrder, a.revealed);
    assert ps == [(revealOrder[0], 0), (revealOrder[1], 0)];
    FoldPair((revealOrder[0], 0), (revealOrder[1], 0));
    assert TopTwo.Fold(ps).second == 0;
  }

  /** Carol reveals 1000 and Bob 1005: Bob's claim succeeds whichever order
      the maps yield, creates the account, refunds Carol's 1000 and leaves
      Bob's 1005 on record; the settlement price is 1000; Carol's claim
      fails. */
  lemma SecondPriceScenario(prim: Primitives, key: PublicKey, bidOrder: seq<Party>, revealOrder: seq<Party>)
    requires Slot(prim.nameHash(Auctioned)) <= 43
    requires bidOrder == [Carol, Bob] || bidOrder == [Bob, Carol]
    requires revealOrder == [Carol, Bob] || revealOrder == [Bob, Carol]
    ensures var r := AfterReveals(prim, 1000, 1005);
      && Auctioned in r.auctions
      && r.auctions[Auctioned].revealed == map[Carol := 1000, Bob := 1005]
      && ClaimArgsOk(r, Auctioned, 1323, bidOrder, revealOrder)
      && Winner(r.auctions[Auctioned], revealOrder).second == 1000
      && (var o := Claim(r, Auctioned, key, Env(1323, Bob, 0), bidOrder, revealOrder);
          && o.ok
          && o.effects == [CreateAccount(Auctioned), AddFullAccessKey(Auctioned, key), Transfer(Carol, 1000)]
          && o.reg.auctions[Auctioned].bids[Bob].amount == 1005
          && o.reg.auctions[Auctioned].bids[Carol].amount == 0)
      && !Claim(r, Auctioned, key, Env(1323, Carol, 0), bidOrder, revealOrder).ok
  {
    AfterRevealsShape(prim, 1000, 1005);
    SecondPriceClaim(AfterReveals(prim, 1000, 1005), prim, key, bidOrder, revealOrder);
    SecondPriceClaimEffects(AfterReveals(prim, 1000, 1005), prim, key, bidOrder, revealOrder);
    SecondPriceLoserRefused(AfterReveals(prim, 1000, 1005), prim, key, bidOrder, revealOrder);
  }

  /** Both bidders reveal 0: no claim can succeed, and Carol can still
      withdraw a zero balance once the auction is settleable. */
  lemma NoValidWinnerScenario(prim: Primitives, key: PublicKey, bidOrder: seq<Party>, revealOrder: seq<Party>, caller: Party)
    requires Slot(prim.nameHash(Auctioned)) <= 43
    requires bidOrder == [Carol, Bob] || bidOrder == [Bob, Carol]
    requires revealOrder == [Carol, Bob] || revealOrder == [Bob, Carol]
    ensures var r := AfterReveals(prim, 0, 0);
      && ClaimArgsOk(r, Auctioned, 1323, bidOrder, revealOrder)
      && !Claim(r, Auctioned, key, Env(1323, caller, 0), bidOrder, revealOrder).ok
      && Withdraw(r, Auctioned, Env(1323, Carol, 0)).ok
      && Withdraw(r, Auctioned, Env(1323, Carol, 0)).effects == [Transfer(Carol, 0)]
  {
    AfterRevealsShape(prim, 0, 0);
    ZeroRevealsSettle(AfterReveals(prim, 0, 0), prim, key, bidOrder, revealOrder, caller);
  }

  /** Phase gating: at block 1322, the last block of the bid period, a
      reveal fails even with the right amount, salt and deposit (the earlier
      version would already accept it). */
  lemma EarlyRevealRefusedScenario(prim: Primitives)
    requires Slot(prim.nameHash(Auctioned)) <= 43
    ensures var r0 := New(2, 30, 35);
      var r1 := PlaceBid(r0, prim, Auctioned, prim.commit(1000, Salt123), Env(1292, Carol, 0)).reg;
      && Auctioned in r1.auctions
      && !Reveal(r1, prim, Auctioned, 1000, Salt123, Env(1322, Carol, 1000)).ok
  {
  }
}
