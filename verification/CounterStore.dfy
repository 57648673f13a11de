/** The Redis-backed counters (app/internal/limiter/counter_store.go) and the usage_counters
    table (app/internal/repository/pgx/guests.go). */
module CounterStores {
  import opened Domain
  import opened Protocol

  /** `sp:link:{link}:{field}` */
  datatype Key = Key(link: LinkId, field: Field)

  const FIELDS: set<Field> := {Requests, Bytes, Violations}

  /** SETNX of the first `n` fields of a seed: a pipeline can break after any command. */
  function SeedKeys(keys: Keys, seed: Counters, n: nat): Keys {
    var k1 := if n >= 1 then SetNX(keys, Requests, seed.requests) else keys;
    var k2 := if n >= 2 then SetNX(k1, Bytes, seed.bytes) else k1;
    if n >= 3 then SetNX(k2, Violations, seed.violations) else k2
  }

  function Snapshot(keys: Keys): Counters {
    Counters(Read(keys, Requests), Read(keys, Bytes), Read(keys, Violations))
  }

  /** The keys of one link. */
  function LinkKeys(ints: map<Key, int>, l: LinkId): Keys {
    map f: Field | f in FIELDS && Key(l, f) in ints :: ints[Key(l, f)]
  }

  lemma LinkKeysUpdate(ints: map<Key, int>, l: LinkId, f: Field, v: int, k: LinkId)
    ensures LinkKeys(ints[Key(l, f) := v], k) == if k == l then LinkKeys(ints, l)[f := v] else LinkKeys(ints, k)
    ensures f in LinkKeys(ints, l) <==> Key(l, f) in ints
    ensures f in LinkKeys(ints, l) ==> LinkKeys(ints, l)[f] == ints[Key(l, f)]
  {
    assert f in FIELDS;
  }

  class CounterStore {
    var ints: map<Key, int>
    var dirty: set<LinkId>

    constructor ()
      ensures ints == map[] && dirty == {}
    {
      ints, dirty := map[], {};
    }

    function KeysOf(l: LinkId): Keys
      reads this`ints
    {
      LinkKeys(ints, l)
    }

    method Put(l: LinkId, f: Field, v: int)
      modifies this`ints
      ensures KeysOf(l) == old(KeysOf(l))[f := v]
      ensures forall k: LinkId :: k != l ==> KeysOf(k) == old(KeysOf(k))
    {
      ghost var was := ints;
      ints := ints[Key(l, f) := v];
      forall k: LinkId ensures KeysOf(k) == if k == l then LinkKeys(was, l)[f := v] else LinkKeys(was, k) {
        LinkKeysUpdate(was, l, f, v, k);
      }
    }

    method SetIfAbsent(l: LinkId, f: Field, v: int)
      modifies this`ints
      ensures KeysOf(l) == SetNX(old(KeysOf(l)), f, v)
      ensures forall k: LinkId :: k != l ==> KeysOf(k) == old(KeysOf(k))
    {
      LinkKeysUpdate(ints, l, f, v, l);
      if Key(l, f) !in ints {
        Put(l, f, v);
      }
    }

    /** `reached` commands of the pipeline take effect; anything below three is an error. */
    method WarmLoad(l: LinkId, seed: Counters, reached: nat) returns (ok: bool)
      modifies this`ints
      ensures ok <==> reached >= 3
      ensures KeysOf(l) == SeedKeys(old(KeysOf(l)), seed, reached)
      ensures forall k: LinkId :: k != l ==> KeysOf(k) == old(KeysOf(k))
    {
      if reached >= 1 {
        SetIfAbsent(l, Requests, seed.requests);
      }
      if reached >= 2 {
        SetIfAbsent(l, Bytes, seed.bytes);
      }
      if reached >= 3 {
        SetIfAbsent(l, Violations, seed.violations);
      }
      ok := reached >= 3;
    }

    method IntOrZero(l: LinkId, f: Field) returns (v: int)
      ensures v == Read(KeysOf(l), f)
    {
      LinkKeysUpdate(ints, l, f, 0, l);
      v := if Key(l, f) in ints then ints[Key(l, f)] else 0;
    }

    method Get(l: LinkId, fails: bool) returns (r: Result<Counters>)
      ensures r == if fails then Err else Ok(Snapshot(KeysOf(l)))
    {
      if fails {
        return Err;
      }
      var requests := IntOrZero(l, Requests);
      var bytes := IntOrZero(l, Bytes);
      var violations := IntOrZero(l, Violations);
      r := Ok(Counters(requests, bytes, violations));
    }

    /** INCRBY then SADD. With one command reached the key is changed, the link is not marked,
        and the caller sees an error. */
    method IncrAndMarkDirty(l: LinkId, f: Field, n: nat, reached: nat) returns (r: Result<int>)
      modifies this
      ensures KeysOf(l) == if reached >= 1 then IncrBy(old(KeysOf(l)), f, n) else old(KeysOf(l))
      ensures dirty == if reached >= 2 then old(dirty) + {l} else old(dirty)
      ensures r == if reached >= 2 then Ok(Read(KeysOf(l), f)) else Err
      ensures forall k: LinkId :: k != l ==> KeysOf(k) == old(KeysOf(k))
    {
      if reached == 0 {
        return Err;
      }
      var v := IntOrZero(l, f);
      Put(l, f, v + n);
      if reached == 1 {
        return Err;
      }
      dirty := dirty + {l};
      r := Ok(v + n);
    }

    /** SMEMBERS: every member once, in an order Redis chooses. */
    method DirtyLinkIDs() returns (ids: seq<LinkId>)
      ensures forall l :: l in ids <==> l in dirty
      ensures forall i, j :: 0 <= i < j < |ids| ==> ids[i] != ids[j]
    {
      ids := [];
      var rest := dirty;
      while rest != {}
        invariant forall l :: l in dirty <==> l in ids || l in rest
        invariant forall l :: l in rest ==> l !in ids
        invariant forall i, j :: 0 <= i < j < |ids| ==> ids[i] != ids[j]
        decreases rest
      {
        var l :| l in rest;
        ids, rest := ids + [l], rest - {l};
      }
    }

    method ClearDirty(l: LinkId, fails: bool) returns (ok: bool)
      modifies this`dirty
      ensures ok == !fails
      ensures dirty == if fails then old(dirty) else old(dirty) - {l}
    {
      if !fails {
        dirty := dirty - {l};
      }
      ok := !fails;
    }
  }

  class UsageTable {
    var rows: map<LinkId, Counters>

    constructor ()
      ensures rows == map[]
    {
      rows := map[];
    }

    function Row(l: LinkId): Option<Counters>
      reads this
    {
      if l in rows then Some(rows[l]) else None
    }

    /** INSERT ... ON CONFLICT DO UPDATE. */
    method Upsert(l: LinkId, c: Counters, fails: bool) returns (ok: bool)
      modifies this
      ensures ok == !fails
      ensures Row(l) == if fails then old(Row(l)) else Some(c)
      ensures forall k: LinkId :: k != l ==> Row(k) == old(Row(k))
    {
      if !fails {
        rows := rows[l := c];
      }
      ok := !fails;
    }
  }
}
