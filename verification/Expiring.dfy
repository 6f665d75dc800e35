/** Hashes whose expiry is refreshed on every write, as the consumer keeps them in Redis, and when their
    expiry can be noticed. */
module Expiring {
  import opened Prelude
  import opened Model

  datatype Hash = Hash(fields: map<int, int>, expiresAt: int)

  datatype ProductKey = ProductKey(tenant: Id, product: Id)

  /** One addition to a field, made at `now`. */
  datatype Entry = Entry(field: int, quantity: Positive, now: int)

  function Field(fields: map<int, int>, f: int): int
  {
    if f in fields then fields[f] else 0
  }

  function LiveFields(h: Option<Hash>, now: int): map<int, int>
  {
    if h.Some? && now < h.value.expiresAt then h.value.fields else map[]
  }

  /** HINCRBYFLOAT then EXPIRE: an expired hash starts over. */
  function Bump(h: Option<Hash>, field: int, quantity: int, now: int, ttl: int): Hash
  {
    var fields := LiveFields(h, now);
    Hash(fields[field := Field(fields, field) + quantity], now + ttl)
  }

  function At(hashes: map<ProductKey, Hash>, key: ProductKey): Option<Hash>
  {
    if key in hashes then Some(hashes[key]) else None
  }

  /** What a read of one field gives at a time. */
  function Live(hashes: map<ProductKey, Hash>, key: ProductKey, field: int, now: int): int
  {
    Field(LiveFields(At(hashes, key), now), field)
  }

  /** What one HINCRBYFLOAT and EXPIRE change, for every read from then on: until the new expiry the field of
      that one hash shows the quantity more and its other fields what they showed, then nothing; every other
      hash reads as if nothing had happened. */
  ghost predicate Bumped(before: map<ProductKey, Hash>, after: map<ProductKey, Hash>, key: ProductKey, field: int,
                         q: int, now: int, ttl: nat)
  {
    && (forall f, later :: now <= later ==>
          Live(after, key, f, later) ==
            if later < now + ttl then Live(before, key, f, now) + (if f == field then q else 0) else 0)
    && (forall k, f, later :: k != key ==> Live(after, k, f, later) == Live(before, k, f, later))
  }

  function BumpIn(hashes: map<ProductKey, Hash>, key: ProductKey, field: int, q: int, now: int, ttl: nat)
    : (after: map<ProductKey, Hash>)
    ensures Bumped(hashes, after, key, field, q, now, ttl)
  {
    hashes[key := Bump(At(hashes, key), field, q, now, ttl)]
  }

  // ---- The hash that is kept and one that never expires ----

  function Kept(entries: seq<Entry>, ttl: nat): Option<Hash>
  {
    if entries == [] then None
    else
      var e := entries[|entries| - 1];
      Some(Bump(Kept(entries[..|entries| - 1], ttl), e.field, e.quantity, e.now, ttl))
  }

  function Forever(entries: seq<Entry>): map<int, int>
  {
    if entries == [] then map[]
    else
      var e, fields := entries[|entries| - 1], Forever(entries[..|entries| - 1]);
      fields[e.field := Field(fields, e.field) + e.quantity]
  }

  lemma KeptAppend(entries: seq<Entry>, e: Entry, ttl: nat)
    ensures Kept(entries + [e], ttl) == Some(Bump(Kept(entries, ttl), e.field, e.quantity, e.now, ttl))
    ensures forall f :: Field(Forever(entries + [e]), f) == Field(Forever(entries), f) + if f == e.field then e.quantity else 0
  {
    assert (entries + [e])[..|entries|] == entries;
  }

  /** When the next thing happened to the hash after entry i: another entry, or the read at `now`. */
  function Next(entries: seq<Entry>, i: nat, now: int): int
  {
    if i + 1 < |entries| then entries[i + 1].now else now
  }

  /** The hash was never left alone for its whole lifetime, from one entry to the next or from the last to now. */
  predicate NeverIdle(entries: seq<Entry>, ttl: nat, now: int)
  {
    forall i :: 0 <= i < |entries| ==> Next(entries, i, now) < entries[i].now + ttl
  }

  lemma NeverIdleStep(entries: seq<Entry>, ttl: nat, now: int)
    requires entries != []
    ensures var front, e := entries[..|entries| - 1], entries[|entries| - 1];
      NeverIdle(entries, ttl, now) <==> now < e.now + ttl && NeverIdle(front, ttl, e.now)
  {
    var front, e := entries[..|entries| - 1], entries[|entries| - 1];
    assert Next(entries, |entries| - 1, now) == now;
    forall i | 0 <= i < |front| ensures Next(front, i, e.now) == Next(entries, i, now) && front[i] == entries[i] {
    }
    if NeverIdle(entries, ttl, now) {
      forall i | 0 <= i < |front| ensures Next(front, i, e.now) < front[i].now + ttl {
        assert Next(entries, i, now) < entries[i].now + ttl;
      }
    }
    if now < e.now + ttl && NeverIdle(front, ttl, e.now) {
      forall i | 0 <= i < |entries| ensures Next(entries, i, now) < entries[i].now + ttl {
        assert i < |front| ==> Next(front, i, e.now) < front[i].now + ttl;
      }
    }
  }

  /** What is read is never more than what was ever added. */
  lemma {:induction false} ReadsAtMostAdded(entries: seq<Entry>, ttl: nat, now: int, f: int)
    ensures 0 <= Field(LiveFields(Kept(entries, ttl), now), f) <= Field(Forever(entries), f)
  {
    if entries != [] {
      ReadsAtMostAdded(entries[..|entries| - 1], ttl, entries[|entries| - 1].now, f);
    }
  }

  ghost predicate ReadsAll(entries: seq<Entry>, ttl: nat, now: int)
  {
    forall f :: Field(LiveFields(Kept(entries, ttl), now), f) == Field(Forever(entries), f)
  }

  /** Expiry goes unnoticed on every field exactly when the hash was never idle for its lifetime. Nothing is
      assumed about the order of the entries' times. */
  lemma {:induction false} ReadsAllWhenNeverIdle(entries: seq<Entry>, ttl: nat, now: int)
    ensures ReadsAll(entries, ttl, now) <==> NeverIdle(entries, ttl, now)
  {
    if entries != [] {
      var front, e := entries[..|entries| - 1], entries[|entries| - 1];
      NeverIdleStep(entries, ttl, now);
      ReadsAllWhenNeverIdle(front, ttl, e.now);
      if now < e.now + ttl {
        forall f
          ensures Field(LiveFields(Kept(entries, ttl), now), f) == Field(Forever(entries), f)
            <==> Field(LiveFields(Kept(front, ttl), e.now), f) == Field(Forever(front), f)
        {
        }
      } else {
        ReadsAtMostAdded(front, ttl, now, e.field);
        assert Field(LiveFields(Kept(entries, ttl), now), e.field) == 0 < Field(Forever(entries), e.field);
      }
    }
  }
}
