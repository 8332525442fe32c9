/** Shared vocabulary of the account-name registrar: the three records both
    versions of the contract declare (Bid, Auction, Registrar), the call
    environment the runtime supplies, and the external effects an operation
    can emit instead of performing ledger I/O itself. */
module Types {

  /** An account name that is auctioned (AccountId). */
  type Name = string
  /** A calling party (the predecessor AccountId). */
  type Party = string
  /** A native balance (u128 Balance); unbounded here. */
  type Amount = nat
  /** A block height (u64 BlockHeight); unbounded here. */
  type Tick = nat
  /** The opaque bytes a bidder commits to. */
  type Commitment = seq<bv8>
  type Salt = string
  type PublicKey = seq<bv8>

  /** Number of weekly release cohorts the name space is split into. */
  const Cohorts: nat := 52

  /** `amount` stays 0 until a successful reveal records the escrowed value. */
  datatype Bid = Bid(amount: Amount, commitment: Commitment)

  /** Per-name auction; `start` is the block of the first accepted bid. */
  datatype Auction = Auction(start: Tick, bids: map<Party, Bid>, revealed: map<Party, Amount>)

  /** The contract singleton: launch block, the two phase lengths, and the auctions. */
  datatype Registrar = Registrar(
    start: Tick,
    auctionPeriod: Tick,
    revealPeriod: Tick,
    auctions: map<Name, Auction>)

  /** What the runtime tells a call: block index, predecessor, attached deposit. */
  datatype Env = Env(now: Tick, caller: Party, deposit: Amount)

  /** Promises an operation issues; they are recorded, not executed. */
  datatype Effect =
    | Transfer(to: Party, amount: Amount)
    | CreateAccount(account: Name)
    | AddFullAccessKey(account: Name, key: PublicKey)

  /** The primitives the contract calls but this model does not define:
      `nameHash` stands for the 64-bit DefaultHasher digest of a name, and
      `commit(amount, salt)` for the bytes of the base58 encoding of the
      decimal amount followed by the salt. */
  datatype Primitives = Primitives(nameHash: Name -> nat, commit: (Amount, Salt) -> Commitment)

  /** Result of a state transition: success flag, new state, emitted effects. */
  datatype Outcome = Outcome(ok: bool, reg: Registrar, effects: seq<Effect>)

  /** A rejection: the state is unchanged and nothing is emitted. */
  function Rejected(r: Registrar): (o: Outcome)
  {
    Outcome(false, r, [])
  }

  /** No element occurs twice. */
  predicate Distinct<T(==)>(s: seq<T>)
  {
    forall i, j :: 0 <= i < j < |s| ==> s[i] != s[j]
  }

  /** `ks` lists every key of `keys` exactly once, as a map iteration does. */
  predicate Enumerates<K(==)>(ks: seq<K>, keys: set<K>)
  {
    && Distinct(ks)
    && (forall i :: 0 <= i < |ks| ==> ks[i] in keys)
    && (forall k :: k in keys ==> k in ks)
  }

  /** Total value moved out of custody by a list of effects. */
  function Transferred(es: seq<Effect>): (total: nat)
  {
    if es == [] then 0
    else (if es[0].Transfer? then es[0].amount else 0) + Transferred(es[1..])
  }

  lemma {:induction false} TransferredAppend(a: seq<Effect>, b: seq<Effect>)
    ensures Transferred(a + b) == Transferred(a) + Transferred(b)
  {
    if a == [] {
      assert a + b == b;
    } else {
      assert (a + b)[1..] == a[1..] + b;
      TransferredAppend(a[1..], b);
    }
  }

  /** An enumeration lists exactly as many keys as the set holds. */
  lemma {:induction false} EnumerationLength<K>(ks: seq<K>, keys: set<K>)
    requires Enumerates(ks, keys)
    ensures |ks| == |keys|
  {
    if ks != [] {
      var rest := ks[1..];
      forall i | 0 <= i < |rest| ensures rest[i] in keys - {ks[0]} {
        assert rest[i] == ks[i + 1];
      }
      forall k | k in keys - {ks[0]} ensures k in rest {
        var i :| 0 <= i < |ks| && ks[i] == k;
        assert rest[i - 1] == k;
      }
      EnumerationLength(rest, keys - {ks[0]});
    }
  }
}
