/**
 * The per-key mutexes of the store (locking.rs). A call of `get_lock` looks its key up under
 * the read lock of a shard and, when it found nothing, again under the write lock; other
 * calls may run between the two.
 */
module Locking {
  import opened Wrappers

  type Key = int
  /** A mutex is the number of its allocation. */
  type Mutex = int
  type Hash = Key -> nat

  const LOCK_SHARDING: nat := 2048

  datatype Call = Reading(key: Key) | Missed(key: Key) | Returned(key: Key, mutex: Mutex)

  datatype Guards = Guards(shards: seq<map<Key, Mutex>>, minted: Mutex, calls: seq<Call>)

  datatype Action = GetLock(key: Key) | ReadPhase(call: nat) | WritePhase(call: nat)

  function Init(): Guards {
    Guards(seq(LOCK_SHARDING, i => map[]), 0, [])
  }

  function Shard(hash: Hash, key: Key): nat {
    hash(key) % LOCK_SHARDING
  }

  function Found(hash: Hash, g: Guards, key: Key): Option<Mutex>
    requires |g.shards| == LOCK_SHARDING
  {
    var shard := g.shards[Shard(hash, key)];
    if key in shard then Some(shard[key]) else None
  }

  /** The entry of the key, created under the write lock unless somebody else has. */
  function Entry(hash: Hash, g: Guards, key: Key): Guards
    requires |g.shards| == LOCK_SHARDING
  {
    if Found(hash, g, key).Some? then g
    else
      var s := Shard(hash, key);
      g.(shards := g.shards[s := g.shards[s][key := g.minted]], minted := g.minted + 1)
  }

  function Step(hash: Hash, g: Guards, a: Action): (g': Guards)
    requires |g.shards| == LOCK_SHARDING
    ensures |g'.shards| == LOCK_SHARDING
  {
    match a
    case GetLock(key) => g.(calls := g.calls + [Reading(key)])
    case ReadPhase(i) =>
      if i >= |g.calls| || !g.calls[i].Reading? then g
      else
        var key := g.calls[i].key;
        var next := match Found(hash, g, key) case Some(m) => Returned(key, m) case None => Missed(key);
        g.(calls := g.calls[i := next])
    case WritePhase(i) =>
      if i >= |g.calls| || !g.calls[i].Missed? then g
      else
        var key := g.calls[i].key;
        var entered := Entry(hash, g, key);
        entered.(calls := g.calls[i := Returned(key, Found(hash, entered, key).value)])
  }

  function Exec(hash: Hash, actions: seq<Action>): (g: Guards)
    ensures |g.shards| == LOCK_SHARDING
  {
    if actions == [] then Init() else Step(hash, Exec(hash, actions[..|actions| - 1]), actions[|actions| - 1])
  }

  /** The object, one method per phase, proved against the steps. */
  class LockGuards {
    const hash: Hash
    var shards: seq<map<Key, Mutex>>
    var minted: Mutex

    ghost predicate Valid()
      reads this
    {
      |shards| == LOCK_SHARDING
    }

    function View(): Guards
      reads this
    {
      Guards(shards, minted, [])
    }

    constructor (hash: Hash)
      ensures Valid() && View() == Init() && this.hash == hash
    {
      this.hash := hash;
      shards := seq(LOCK_SHARDING, i => map[]);
      minted := 0;
    }

    method Lookup(key: Key) returns (found: Option<Mutex>)
      requires Valid()
      ensures found == Found(hash, View(), key)
    {
      var shard := shards[hash(key) % |shards|];
      if key in shard {
        return Some(shard[key]);
      }
      return None;
    }

    method EntryOrInsert(key: Key) returns (lock: Mutex)
      requires Valid()
      modifies this
      ensures Valid() && View() == Entry(hash, old(View()), key) && Found(hash, View(), key) == Some(lock)
    {
      var s := hash(key) % |shards|;
      if key !in shards[s] {
        shards := shards[s := shards[s][key := minted]];
        minted := minted + 1;
      }
      return shards[s][key];
    }

    /** A call that nobody interrupts. */
    method GetLock(key: Key) returns (lock: Mutex)
      requires Valid()
      modifies this
      ensures Valid() && View() == Entry(hash, old(View()), key) && Found(hash, View(), key) == Some(lock)
    {
      var found := Lookup(key);
      if found.Some? {
        return found.value;
      }
      lock := EntryOrInsert(key);
    }
  }

  // ----- Every interleaving -----

  /** Returned mutexes are still the entries of their keys, and entries are never shared. */
  ghost predicate Inv(hash: Hash, g: Guards) {
    && |g.shards| == LOCK_SHARDING
    && (forall key :: Found(hash, g, key).Some? ==> Found(hash, g, key).value < g.minted)
    && (forall a, b :: Found(hash, g, a).Some? && Found(hash, g, a) == Found(hash, g, b) ==> a == b)
    && (forall i :: 0 <= i < |g.calls| && g.calls[i].Returned? ==>
          Found(hash, g, g.calls[i].key) == Some(g.calls[i].mutex))
  }

  lemma EntryFound(hash: Hash, g: Guards, key: Key, other: Key)
    requires |g.shards| == LOCK_SHARDING
    ensures var g' := Entry(hash, g, key);
            Found(hash, g', other) ==
            if other == key && Found(hash, g, key).None? then Some(g.minted) else Found(hash, g, other)
  {
  }

  lemma StepInv(hash: Hash, g: Guards, a: Action)
    requires Inv(hash, g)
    ensures Inv(hash, Step(hash, g, a))
  {
    var g' := Step(hash, g, a);
    if a.WritePhase? && g' != g {
      forall key
        ensures Found(hash, g', key) == Found(hash, Entry(hash, g, g.calls[a.call].key), key)
      {
      }
      forall key { EntryFound(hash, g, g.calls[a.call].key, key); }
      hide Entry;
    } else {
      forall key
        ensures Found(hash, g', key) == Found(hash, g, key)
      {
      }
    }
    hide Found;
  }

  lemma {:induction false} EveryRun(hash: Hash, actions: seq<Action>)
    ensures Inv(hash, Exec(hash, actions))
  {
    if actions != [] {
      EveryRun(hash, actions[..|actions| - 1]);
      StepInv(hash, Exec(hash, actions[..|actions| - 1]), actions[|actions| - 1]);
      hide Inv, Step;
    }
  }

  /** Every entry is in the shard that the hash of its key names. */
  ghost predicate Sharded(hash: Hash, g: Guards) {
    && |g.shards| == 2048
    && forall i, key :: 0 <= i < |g.shards| && key in g.shards[i] ==> i == hash(key) % 2048
  }

  lemma {:induction false} EntriesInShard(hash: Hash, actions: seq<Action>)
    ensures Sharded(hash, Exec(hash, actions))
  {
    if actions != [] {
      EntriesInShard(hash, actions[..|actions| - 1]);
    }
  }

  /** A key that has an entry is served by the read phase alone, and nothing is created. */
  lemma {:induction false} ReadPhaseServes(hash: Hash, actions: seq<Action>, i: nat)
    requires i < |Exec(hash, actions).calls| && Exec(hash, actions).calls[i].Reading?
    ensures var g, g' := Exec(hash, actions), Exec(hash, actions + [ReadPhase(i)]);
            var key := g.calls[i].key;
            var shard := g.shards[hash(key) % 2048];
            && g'.shards == g.shards && |g'.calls| == |g.calls|
            && g'.calls[i] == (if key in shard then Returned(key, shard[key]) else Missed(key))
  {
    assert (actions + [ReadPhase(i)])[..|actions|] == actions;
  }

  /** Whatever happened before, a call that takes its two phases returns a mutex for its own key. */
  lemma {:induction false} CallReturns(hash: Hash, actions: seq<Action>, i: nat)
    requires i < |Exec(hash, actions).calls|
    ensures var calls := Exec(hash, actions + [ReadPhase(i)] + [WritePhase(i)]).calls;
            i < |calls| && calls[i].Returned? && calls[i].key == Exec(hash, actions).calls[i].key
  {
    var read := actions + [ReadPhase(i)];
    assert read[..|actions|] == actions && (read + [WritePhase(i)])[..|read|] == read;
  }

  /** In every interleaving two calls get the same mutex exactly when they asked for the same key. */
  lemma {:induction false} SameMutexIffSameKey(hash: Hash, actions: seq<Action>, i: nat, j: nat)
    requires i < |Exec(hash, actions).calls| && j < |Exec(hash, actions).calls|
    requires Exec(hash, actions).calls[i].Returned? && Exec(hash, actions).calls[j].Returned?
    ensures Exec(hash, actions).calls[i].mutex == Exec(hash, actions).calls[j].mutex <==>
            Exec(hash, actions).calls[i].key == Exec(hash, actions).calls[j].key
  {
    EveryRun(hash, actions);
    hide Exec;
  }
}
