/** Bucket identities and the local token bucket (crates/core/src/bucket.rs, crates/core/src/cache.rs). */
module Buckets {
  import opened Basics

  /** Addresses and subjects are opaque text. */
  datatype Id = Public(ip: string) | Protected(sub: string) {
    function ToKey(): string {
      match this
      case Public(ip) => "ip:" + ip
      case Protected(sub) => "sub:" + sub
    }
  }

  /** Two clients never share a Redis key. */
  lemma {:induction false} KeysAreInjective(a: Id, b: Id)
    ensures a.ToKey() == b.ToKey() <==> a == b
  {
    assert a.Public? ==> a.ToKey()[0] == 'i' && a.ToKey()[3..] == a.ip;
    assert b.Public? ==> b.ToKey()[0] == 'i' && b.ToKey()[3..] == b.ip;
    assert a.Protected? ==> a.ToKey()[0] == 's' && a.ToKey()[4..] == a.sub;
    assert b.Protected? ==> b.ToKey()[0] == 's' && b.ToKey()[4..] == b.sub;
  }

  lemma OtherKeys(id: Id)
    ensures forall other: Id :: other != id ==> other.ToKey() != id.ToKey()
  {
    forall other: Id | other != id ensures other.ToKey() != id.ToKey() {
      KeysAreInjective(other, id);
    }
  }

  /** The value of a bucket: what the class below holds in its fields. */
  datatype BucketState = BucketState(tokens: nat, expiresAt: int, window: int, exhausted: bool) {

    predicate IsExpired(now: int) {
      expiresAt <= now
    }

    /** A bucket from which a call made now would get a token. */
    predicate Usable(now: int) {
      tokens > 0 && !IsExpired(now)
    }

    /** `expires_at - now` as a duration. */
    function Retry(now: int): nat {
      Sat(expiresAt - now)
    }
  }

  class Bucket {
    var tokens: nat
    const expiresAt: int
    const window: int
    var exhausted: bool

    /** `born` is the clock sample taken inside the constructor. */
    constructor (tokens: nat, ttl: nat, window: int, born: int)
      ensures Value() == BucketState(tokens, born + ttl, window, false)
    {
      this.tokens := tokens;
      this.expiresAt := born + ttl;
      this.window := window;
      this.exhausted := false;
    }

    function Value(): BucketState
      reads this
    {
      BucketState(tokens, expiresAt, window, exhausted)
    }

    method SetExhausted()
      modifies this`exhausted
      ensures Value() == old(Value()).(exhausted := true)
    {
      exhausted := true;
    }

    /** Takes one token if there is one; returns the tokens left. */
    method Consume() returns (left: nat)
      modifies this`tokens
      ensures Value() == old(Value()).(tokens := Sat(old(tokens) - 1))
      ensures left == Sat(old(tokens) - 1)
    {
      if tokens == 0 {
        return 0;
      }
      tokens := tokens - 1;
      left := tokens;
    }
  }
}
