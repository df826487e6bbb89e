/** The key-value store's key layout for one session token:
    `wart:session:<token>` holds the session record, `wart:store:<token>` the
    store hash written by the session services, and `wart:store:<token>:<ep>`
    the shard of epoch `ep` read and written by the versioned scripts. */
module Keys {
  import opened Decimal

  function SessionKey(token: string): string {
    "wart:session:" + token
  }

  function StoreKey(token: string): string {
    "wart:store:" + token
  }

  /** The scripts' `prefk .. ep`: a prefix followed by the epoch in decimal. */
  function Shard(prefk: string, ep: nat): string {
    prefk + NatToDecimal(ep)
  }

  /** `format!("wart:store:{}:{}", token, ep)`. */
  function ShardKey(token: string, ep: nat): string {
    Shard(StoreKey(token) + ":", ep)
  }

  /** Shards of distinct epochs under one prefix are distinct keys. */
  lemma ShardInjective(prefk: string, a: nat, b: nat)
    requires Shard(prefk, a) == Shard(prefk, b)
    ensures a == b
  {
    assert Shard(prefk, a)[|prefk|..] == NatToDecimal(a);
    assert Shard(prefk, b)[|prefk|..] == NatToDecimal(b);
    DecimalInjective(a, b);
  }

  /** A session key is never a store key or a shard key, and a token's store
      key is none of its shard keys. */
  lemma KeysDistinct(t: string, u: string, ep: nat)
    ensures SessionKey(t) != StoreKey(u)
    ensures SessionKey(t) != ShardKey(u, ep)
    ensures StoreKey(t) != ShardKey(t, ep)
  {
    assert SessionKey(t)[6] == 'e';
    assert StoreKey(u)[6] == 't';
    assert ShardKey(u, ep)[6] == 't';
    assert |ShardKey(t, ep)| > |StoreKey(t)|;
  }
}
