/** Time windows of the complete contract, as functions of the blocks elapsed
    since an auction's first bid (or since the registrar's launch for the
    eligibility schedule). Phase is never stored: every operation re-derives
    it from the clock and the bid/reveal counts. */
module Phases {
  import opened Types

  /** Blocks elapsed between `start` and `now` (an unchecked u64 subtraction
      in the contract, so callers must have `start <= now`). */
  function Elapsed(now: Tick, start: Tick): (e: nat)
    requires start <= now
  {
    now - start
  }

  /** Number of whole auction periods since launch (u64 division). */
  function Weeks(now: Tick, launch: Tick, auctionPeriod: Tick): (w: nat)
    requires launch <= now && auctionPeriod > 0
    ensures w * auctionPeriod <= now - launch < (w + 1) * auctionPeriod
  {
    (now - launch) / auctionPeriod
  }

  /** The eligibility cohort of a name: its hash modulo 52. */
  function Slot(hash: nat): (s: nat)
    ensures s < Cohorts
  {
    hash % Cohorts
  }

  /** Bids are accepted up to and including the last block of the period. */
  predicate BidWindow(elapsed: nat, auctionPeriod: nat)
  {
    elapsed <= auctionPeriod
  }

  /** Reveals are accepted strictly after the bid period and up to and
      including the last block of the reveal period. */
  predicate RevealWindow(elapsed: nat, auctionPeriod: nat, revealPeriod: nat)
  {
    auctionPeriod < elapsed <= auctionPeriod + revealPeriod
  }

  /** The gate shared by withdraw and claim: the bid period is over, and
      while the reveal period lasts every bidder must have revealed. */
  predicate Settleable(elapsed: nat, auctionPeriod: nat, revealPeriod: nat, bidCount: nat, revealCount: nat)
  {
    && auctionPeriod < elapsed
    && (elapsed <= auctionPeriod + revealPeriod ==> bidCount == revealCount)
  }

  /** A name without an auction opens once its cohort's week has come:
      the schedule is cumulative, not exact-week. */
  predicate NameOpen(hash: nat, weeks: nat)
  {
    Slot(hash) <= weeks
  }

  /** The bid window ends where the reveal window begins, and nothing can be
      settled while bids are still accepted; once the reveal window has
      passed, every auction is settleable whatever its counts. */
  lemma WindowsOrdered(e: nat, ap: nat, rp: nat, nb: nat, nr: nat)
    ensures BidWindow(e, ap) ==> !RevealWindow(e, ap, rp) && !Settleable(e, ap, rp, nb, nr)
    ensures e > ap + rp ==> Settleable(e, ap, rp, nb, nr) && !RevealWindow(e, ap, rp)
    ensures RevealWindow(e, ap, rp) && Settleable(e, ap, rp, nb, nr) ==> nb == nr
  {
  }

  /** Multiplying by a positive factor keeps a strict order. */
  lemma {:induction false} CancelFactor(x: nat, y: nat, c: nat)
    requires c > 0 && x * c < y * c
    ensures x < y
  {
    if x > 0 && y > 0 {
      assert (x - 1) * c == x * c - c && (y - 1) * c == y * c - c;
      CancelFactor(x - 1, y - 1, c);
    }
  }

  /** A name stays open once its week has come: later blocks never close it. */
  lemma NameOpenMonotone(hash: nat, launch: Tick, ap: Tick, now: Tick, later: Tick)
    requires launch <= now <= later && ap > 0
    requires NameOpen(hash, Weeks(now, launch, ap))
    ensures NameOpen(hash, Weeks(later, launch, ap))
  {
    var w1, w2 := Weeks(now, launch, ap), Weeks(later, launch, ap);
    CancelFactor(w1, w2 + 1, ap);
  }
}
