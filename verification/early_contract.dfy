/** The earlier registrar (src/lib.rs), reduced to its accept/reject logic.
    That version reads each auction by value with `unwrap_or` of an empty
    auction whose start block is 0, so a start block of 0 stands for "no
    auction", and a missing bid reads as an empty commitment. Its writes to
    the fetched copy are not modelled; the one write-back the source does
    perform, inserting a freshly opened auction, is returned as a value. */
module EarlyContract {
  import opened Types
  import opened Phases
  import Contract

  /** `auctions.get(name).unwrap_or(empty_auction)`. */
  function Fetch(r: Registrar, name: Name): (a: Auction)
  {
    if name in r.auctions then r.auctions[name] else Auction(0, map[], map[])
  }

  /** `bids.get(party).unwrap_or(empty_bid)`. */
  function FetchBid(a: Auction, p: Party): (b: Bid)
  {
    if p in a.bids then a.bids[p] else Bid(0, [])
  }

  /** Whether the caller is on record: a non-empty stored commitment. */
  predicate HoldsCommitment(a: Auction, p: Party)
  {
    |FetchBid(a, p).commitment| != 0
  }

  /** Half-open windows of this version. */
  predicate EarlyBidWindow(elapsed: nat, auctionPeriod: nat)
  {
    elapsed < auctionPeriod
  }

  predicate EarlyRevealWindow(elapsed: nat, auctionPeriod: nat, revealPeriod: nat)
  {
    auctionPeriod <= elapsed < auctionPeriod + revealPeriod
  }

  predicate EarlyWithdrawWindow(elapsed: nat, auctionPeriod: nat, revealPeriod: nat, bidCount: nat, revealCount: nat)
  {
    && auctionPeriod <= elapsed
    && (elapsed < auctionPeriod + revealPeriod ==> bidCount == revealCount)
  }

  /** A name opens in exactly one week: the one equal to its cohort. */
  predicate Eligible(hash: nat, weeks: nat)
  {
    weeks == Slot(hash)
  }

  /** The unchecked subtractions of this version: against the fetched start
      block, and for a first bid against the launch block, with a division
      by the auction period. */
  predicate EarlyClockOk(r: Registrar, name: Name, now: Tick)
  {
    Fetch(r, name).start <= now
  }

  predicate EarlyBidClockOk(r: Registrar, name: Name, now: Tick)
  {
    && EarlyClockOk(r, name, now)
    && (Fetch(r, name).start == 0 ==> r.start <= now && r.auctionPeriod > 0)
  }

  datatype BidVerdict =
    | Refused
    | Joined                   // accepted into an existing auction
    | Opened(auction: Auction) // accepted as first bid; this auction is inserted

  /** Accept/reject logic of `bid`. */
  function EarlyBid(r: Registrar, prim: Primitives, name: Name, commitment: Commitment, env: Env): (v: BidVerdict)
    requires EarlyBidClockOk(r, name, env.now)
    ensures var a := Fetch(r, name);
      !v.Refused? <==>
        if a.start != 0 then EarlyBidWindow(Elapsed(env.now, a.start), r.auctionPeriod) && !HoldsCommitment(a, env.caller)
        else Eligible(prim.nameHash(name), Weeks(env.now, r.start, r.auctionPeriod))
    ensures v.Joined? ==> Fetch(r, name).start != 0
    ensures v.Opened? ==>
      && Fetch(r, name).start == 0
      && v.auction == Auction(env.now, map[env.caller := Bid(0, commitment)], map[])
  {
    var a := Fetch(r, name);
    if a.start != 0 then
      if env.now - a.start >= r.auctionPeriod then Refused
      else if |FetchBid(a, env.caller).commitment| != 0 then Refused
      else Joined
    else
      var weeks := (env.now - r.start) / r.auctionPeriod;
      if weeks != prim.nameHash(name) % Cohorts then Refused
      else Opened(Auction(env.now, map[env.caller := Bid(0, commitment)], map[]))
  }

  /** Accept/reject logic of `reveal`. The deposit check comes first, before
      the auction is even looked up. */
  function EarlyReveal(r: Registrar, prim: Primitives, name: Name, amount: Amount, salt: Salt, env: Env): (ok: bool)
    requires amount == env.deposit ==> EarlyClockOk(r, name, env.now)
    ensures amount != env.deposit ==> !ok
    ensures var a := Fetch(r, name);
      ok <==>
        && amount == env.deposit
        && a.start != 0
        && EarlyRevealWindow(Elapsed(env.now, a.start), r.auctionPeriod, r.revealPeriod)
        && HoldsCommitment(a, env.caller)
        && FetchBid(a, env.caller).commitment == prim.commit(amount, salt)
  {
    if amount != env.deposit then false
    else
      var a := Fetch(r, name);
      if a.start == 0 then false
      else if env.now - a.start < r.auctionPeriod then false
      else if env.now - a.start >= r.auctionPeriod + r.revealPeriod then false
      else
        var b := FetchBid(a, env.caller);
        if |b.commitment| != 0 then b.commitment == prim.commit(amount, salt)
        else false
  }

  /** Outcome of `withdraw`: whether it succeeded and the transfer it issued. */
  datatype Payout = Payout(ok: bool, effects: seq<Effect>)

  /** Accept/reject logic of `withdraw`, with the transfer it issues for the
      amount read from the fetched bid. */
  function EarlyWithdraw(r: Registrar, name: Name, env: Env): (p: Payout)
    requires EarlyClockOk(r, name, env.now)
    ensures var a := Fetch(r, name);
      p.ok <==>
        && a.start != 0
        && EarlyWithdrawWindow(Elapsed(env.now, a.start), r.auctionPeriod, r.revealPeriod, |a.bids|, |a.revealed|)
        && HoldsCommitment(a, env.caller)
    ensures var amount := FetchBid(Fetch(r, name), env.caller).amount;
      p.effects == if p.ok && amount > 0 then [Transfer(env.caller, amount)] else []
  {
    var a := Fetch(r, name);
    if a.start == 0 then Payout(false, [])
    else if env.now - a.start < r.auctionPeriod then Payout(false, [])
    else if env.now - a.start < r.auctionPeriod + r.revealPeriod && |a.bids| != |a.revealed| then Payout(false, [])
    else
      var b := FetchBid(a, env.caller);
      if |b.commitment| != 0 then
        if b.amount > 0 then Payout(true, [Transfer(env.caller, b.amount)]) else Payout(true, [])
      else Payout(false, [])
  }

  // ----- properties -----

  /** A name with no auction can be opened in one week only: two first bids
      that are both accepted fall into the same week since launch. */
  lemma OpeningWeekUnique(r: Registrar, prim: Primitives, name: Name, c1: Commitment, c2: Commitment, env1: Env, env2: Env)
    requires Fetch(r, name).start == 0
    requires EarlyBidClockOk(r, name, env1.now) && EarlyBidClockOk(r, name, env2.now)
    requires !EarlyBid(r, prim, name, c1, env1).Refused? && !EarlyBid(r, prim, name, c2, env2).Refused?
    ensures Weeks(env1.now, r.start, r.auctionPeriod) == Weeks(env2.now, r.start, r.auctionPeriod)
  {
  }

  /** A stored auction whose start block is 0 is indistinguishable from a
      missing one: every gate answers as if the name had no auction. */
  lemma ZeroStartReadsAsMissing(r: Registrar, prim: Primitives, name: Name, commitment: Commitment,
                                amount: Amount, salt: Salt, env: Env)
    requires name in r.auctions && r.auctions[name].start == 0
    requires r.start <= env.now && r.auctionPeriod > 0
    ensures var m := r.(auctions := r.auctions - {name});
      && EarlyBid(r, prim, name, commitment, env) == EarlyBid(m, prim, name, commitment, env)
      && !EarlyReveal(r, prim, name, amount, salt, env)
      && !EarlyWithdraw(r, name, env).ok
  {
  }

  /** Every first bid this version accepts, the complete version accepts
      too, opening the same auction. */
  lemma ExactWeekImpliesCumulative(r: Registrar, prim: Primitives, name: Name, commitment: Commitment, env: Env)
    requires name !in r.auctions
    requires EarlyBidClockOk(r, name, env.now)
    requires EarlyBid(r, prim, name, commitment, env).Opened?
    ensures Contract.BidClockOk(r, name, env.now)
    ensures var o := Contract.PlaceBid(r, prim, name, commitment, env);
      o.ok && o.reg.auctions[name] == EarlyBid(r, prim, name, commitment, env).auction
  {
  }

  /** The converse fails: in any week after a name's cohort the complete
      version still opens it, while this version refuses. */
  lemma CumulativeOpensLaterWeeks(r: Registrar, prim: Primitives, name: Name, commitment: Commitment, env: Env)
    requires name !in r.auctions
    requires r.start <= env.now && r.auctionPeriod > 0
    requires Weeks(env.now, r.start, r.auctionPeriod) > Slot(prim.nameHash(name))
    ensures EarlyBid(r, prim, name, commitment, env).Refused?
    ensures Contract.PlaceBid(r, prim, name, commitment, env).ok
  {
  }

  /** This version's bid window lies inside the complete version's, and
      its reveal window is the complete version's shifted one block earlier:
      it includes the block where bidding ends and excludes the last block
      of the reveal period. */
  lemma WindowsComparedWithComplete(e: nat, ap: nat, rp: nat)
    ensures EarlyBidWindow(e, ap) ==> BidWindow(e, ap)
    ensures EarlyRevealWindow(e, ap, rp) && !RevealWindow(e, ap, rp) <==> rp > 0 && e == ap
    ensures RevealWindow(e, ap, rp) && !EarlyRevealWindow(e, ap, rp) <==> rp > 0 && e == ap + rp
  {
  }

  /** A second bid by the same party inside the bid period: this version
      refuses it, the complete version accepts it and overwrites the first. */
  lemma RebidRefusedHereAcceptedThere(r: Registrar, prim: Primitives, name: Name, commitment: Commitment, env: Env)
    requires name in r.auctions && r.auctions[name].start != 0
    requires r.auctions[name].start <= env.now
    requires EarlyBidWindow(Elapsed(env.now, r.auctions[name].start), r.auctionPeriod)
    requires HoldsCommitment(r.auctions[name], env.caller)
    ensures EarlyBid(r, prim, name, commitment, env).Refused?
    ensures Contract.PlaceBid(r, prim, name, commitment, env).ok
  {
  }

  /** A reveal this version accepts is accepted by the complete version too,
      except on the block where bidding ends, which only this version
      counts as part of the reveal period. */
  lemma RevealAcceptedByBoth(r: Registrar, prim: Primitives, name: Name, amount: Amount, salt: Salt, env: Env)
    requires name in r.auctions
    requires EarlyClockOk(r, name, env.now)
    requires EarlyReveal(r, prim, name, amount, salt, env)
    requires Elapsed(env.now, r.auctions[name].start) != r.auctionPeriod
    ensures Contract.AuctionClockOk(r, name, env.now)
    ensures Contract.Reveal(r, prim, name, amount, salt, env).ok
  {
  }

  /** A withdraw this version accepts, outside the two blocks where the
      windows differ, is accepted by the complete version as well, and both
      pay the caller the same amount: this version merely skips the
      transfer of a zero amount. */
  lemma WithdrawPaysLikeComplete(r: Registrar, name: Name, env: Env)
    requires name in r.auctions
    requires EarlyClockOk(r, name, env.now)
    requires EarlyWithdraw(r, name, env).ok
    requires var e := Elapsed(env.now, r.auctions[name].start);
      e != r.auctionPeriod && e != r.auctionPeriod + r.revealPeriod
    ensures Contract.AuctionClockOk(r, name, env.now)
    ensures Contract.Withdraw(r, name, env).ok
    ensures Transferred(EarlyWithdraw(r, name, env).effects) == Transferred(Contract.Withdraw(r, name, env).effects)
  {
  }
}
