/** The single-use sign-in nonces of the web UI: a map that is purged of expired entries as it is
    used, against a history that forgets nothing. */
module NonceStore {
  import opened Wrappers

  /** One call, with the clock readings it takes; `Mint` reads the clock twice. */
  datatype Call = Mint(nonce: string, purgeAt: int, at: int) | Redeem(nonce: string, at: int) | Size(at: int) {
    function Begins(): int { if Mint? then purgeAt else at }
  }

  // ---------------------------------------------------------------- the store

  type Store = map<string, int>

  function Purged(store: Store, t: int): Store {
    map nonce | nonce in store && store[nonce] > t :: store[nonce]
  }

  function Next(ttl: int, store: Store, call: Call): Store {
    match call
    case Mint(nonce, purgeAt, at) => Purged(store, purgeAt)[nonce := at + ttl]
    case Redeem(nonce, _) => if nonce == "" then store else store - {nonce}
    case Size(at) => Purged(store, at)
  }

  predicate Accepts(store: Store, nonce: string, t: int) {
    nonce != "" && nonce in store && store[nonce] > t
  }

  function Run(ttl: int, calls: seq<Call>): Store {
    if calls == [] then map[] else Next(ttl, Run(ttl, calls[..|calls| - 1]), calls[|calls| - 1])
  }

  class Nonces {
    const ttl: int
    var store: Store

    constructor (ttl: int)
      ensures this.ttl == ttl && store == map[]
    {
      this.ttl := ttl;
      store := map[];
    }

    method PurgeExpired(t: int)
      modifies this`store
      ensures store == Purged(old(store), t)
    {
      var todo := store.Keys;
      while todo != {}
        invariant todo <= store.Keys <= old(store).Keys
        invariant forall nonce | nonce in old(store) && nonce !in todo :: nonce in store <==> old(store)[nonce] > t
        invariant forall nonce | nonce in store :: store[nonce] == old(store)[nonce]
        decreases todo
      {
        var nonce :| nonce in todo;
        if store[nonce] <= t {
          store := store - {nonce};
        }
        todo := todo - {nonce};
      }
    }

    method MintNonce(nonce: string, purgeAt: int, at: int) returns (minted: string, expiresInSec: int)
      modifies this`store
      ensures store == Next(ttl, old(store), Mint(nonce, purgeAt, at))
      ensures minted == nonce && -500 <= 1000 * expiresInSec - ttl <= 500
    {
      PurgeExpired(purgeAt);
      store := store[nonce := at + ttl];
      return nonce, (ttl + 500) / 1000;
    }

    method RedeemNonce(nonce: string, at: int) returns (ok: bool)
      modifies this`store
      ensures store == Next(ttl, old(store), Redeem(nonce, at))
      ensures ok <==> Accepts(old(store), nonce, at)
    {
      if nonce == "" || nonce !in store {
        return false;
      }
      var exp := store[nonce];
      store := store - {nonce};
      return exp > at;
    }

    method CountNonces(at: int) returns (n: nat)
      modifies this`store
      ensures store == Next(ttl, old(store), Size(at)) && n == |store|
    {
      PurgeExpired(at);
      return |store|;
    }
  }

  // ---------------------------------------------------------------- the history

  /** When the nonce runs out, if the latest call about it minted it. */
  function Live(ttl: int, calls: seq<Call>, nonce: string): Option<int> {
    if calls == [] then None
    else
      var call := calls[|calls| - 1];
      if call.Mint? && call.nonce == nonce then Some(call.at + ttl)
      else if call.Redeem? && call.nonce == nonce && nonce != "" then None
      else Live(ttl, calls[..|calls| - 1], nonce)
  }

  /** The clock never goes back. */
  predicate Ordered(calls: seq<Call>) {
    calls != [] ==>
      var n := |calls| - 1;
      && Ordered(calls[..n])
      && calls[n].Begins() <= calls[n].at
      && (n > 0 ==> calls[n - 1].at <= calls[n].Begins())
  }

  function Now(calls: seq<Call>): Option<int> {
    if calls == [] then None else Some(calls[|calls| - 1].at)
  }

  /** The store holds what the history calls live, but for nonces that have run out already. */
  lemma {:induction false} StoreIsLive(ttl: int, calls: seq<Call>, nonce: string)
    requires Ordered(calls)
    ensures var store, live := Run(ttl, calls), Live(ttl, calls, nonce);
      if nonce in store then live == Some(store[nonce])
      else live.None? || (calls != [] && live.value <= Now(calls).value)
  {
    if calls != [] {
      StoreIsLive(ttl, calls[..|calls| - 1], nonce);
    }
  }

  /** Purging is invisible to `redeem`: over every history it accepts a nonce exactly when the
      latest call about it minted it and it has not run out. */
  lemma RedeemAnswersHistory(ttl: int, calls: seq<Call>, nonce: string, at: int)
    requires Ordered(calls + [Redeem(nonce, at)])
    ensures Accepts(Run(ttl, calls), nonce, at)
       <==> nonce != "" && Live(ttl, calls, nonce).Some? && Live(ttl, calls, nonce).value > at
  {
    assert (calls + [Redeem(nonce, at)])[..|calls|] == calls;
    StoreIsLive(ttl, calls, nonce);
  }

  function Minted(calls: seq<Call>): set<string> {
    set call | call in calls && call.Mint? :: call.nonce
  }

  lemma {:induction false} LiveWasMinted(ttl: int, calls: seq<Call>, nonce: string)
    requires Live(ttl, calls, nonce).Some?
    ensures nonce in Minted(calls)
  {
    var n := |calls| - 1;
    assert calls[n] in calls;
    if !(calls[n].Mint? && calls[n].nonce == nonce) {
      LiveWasMinted(ttl, calls[..n], nonce);
      var call :| call in calls[..n] && call.Mint? && call.nonce == nonce;
      assert call in calls;
    }
  }

  /** The nonces that the history calls live at this time. */
  function LiveAt(ttl: int, calls: seq<Call>, at: int): set<string> {
    set nonce | nonce in Minted(calls) && Live(ttl, calls, nonce).Some? && Live(ttl, calls, nonce).value > at
  }

  /** `size` is exactly the number of live nonces. */
  lemma SizeCountsLive(ttl: int, calls: seq<Call>, at: int)
    requires Ordered(calls + [Size(at)])
    ensures |Next(ttl, Run(ttl, calls), Size(at))| == |LiveAt(ttl, calls, at)|
  {
    assert (calls + [Size(at)])[..|calls|] == calls;
    var left := Next(ttl, Run(ttl, calls), Size(at));
    forall nonce ensures nonce in left <==> nonce in LiveAt(ttl, calls, at) {
      StoreIsLive(ttl, calls, nonce);
      if Live(ttl, calls, nonce).Some? {
        LiveWasMinted(ttl, calls, nonce);
      }
    }
    assert left.Keys == LiveAt(ttl, calls, at);
  }

  // ---------------------------------------------------------------- single use

  predicate Mentions(call: Call, nonce: string) {
    !call.Size? && call.nonce == nonce
  }

  /** Every minted nonce is new: no earlier call minted or presented it. */
  predicate Fresh(calls: seq<Call>) {
    forall i, j | 0 <= i < j < |calls| && calls[j].Mint? :: !Mentions(calls[i], calls[j].nonce)
  }

  /** With fresh nonces, live means minted and never presented. */
  lemma {:induction false} FreshLive(ttl: int, calls: seq<Call>, nonce: string)
    requires Fresh(calls) && nonce != ""
    ensures Live(ttl, calls, nonce).Some?
       <==> nonce in Minted(calls) && forall i | 0 <= i < |calls| && calls[i].Redeem? :: calls[i].nonce != nonce
  {
    if calls != [] {
      var n := |calls| - 1;
      var before := calls[..n];
      assert calls == before + [calls[n]];
      FreshLive(ttl, before, nonce);
      if nonce in Minted(before) {
        var call :| call in before && call.Mint? && call.nonce == nonce;
        assert call in calls;
      }
    }
  }

  /** So `redeem` is true exactly for a nonce that was minted, has not run out, and was never
      presented before. */
  lemma RedeemIsSingleUse(ttl: int, calls: seq<Call>, nonce: string, at: int)
    requires Ordered(calls + [Redeem(nonce, at)]) && Fresh(calls) && nonce != ""
    ensures Accepts(Run(ttl, calls), nonce, at)
       <==> && (exists i | 0 <= i < |calls| :: calls[i].Mint? && calls[i].nonce == nonce && calls[i].at + ttl > at)
            && (forall i | 0 <= i < |calls| && calls[i].Redeem? :: calls[i].nonce != nonce)
  {
    RedeemAnswersHistory(ttl, calls, nonce, at);
    FreshLive(ttl, calls, nonce);
    forall i | 0 <= i < |calls| && calls[i].Mint? && calls[i].nonce == nonce
      ensures calls[i] in calls
    {
    }
    if nonce in Minted(calls) && forall i | 0 <= i < |calls| && calls[i].Redeem? :: calls[i].nonce != nonce {
      MintDecides(ttl, calls, nonce);
    }
  }

  /** The one call that minted a live nonce says when it runs out. */
  lemma {:induction false} MintDecides(ttl: int, calls: seq<Call>, nonce: string)
    requires Fresh(calls) && Live(ttl, calls, nonce).Some?
    ensures forall i | 0 <= i < |calls| && calls[i].Mint? && calls[i].nonce == nonce :: Live(ttl, calls, nonce) == Some(calls[i].at + ttl)
    ensures exists i | 0 <= i < |calls| :: calls[i].Mint? && calls[i].nonce == nonce
  {
    var n := |calls| - 1;
    if !(calls[n].Mint? && calls[n].nonce == nonce) {
      MintDecides(ttl, calls[..n], nonce);
      var i :| 0 <= i < n && calls[..n][i].Mint? && calls[..n][i].nonce == nonce;
      assert calls[i].Mint?;
    }
  }
}
