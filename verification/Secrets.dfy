/**
 The in-memory secret store. Each operation samples the clock and then takes the lock; the order
 of events here is the lock order, and times are in milliseconds.
 */
module Secrets {
  import opened Common

  type Key = string
  type Secret = string

  datatype Held = Held(secret: Secret, stored: nat, read: nat, idle: nat, maxAge: nat)

  /** `now - since >= bound`, on instants, whose difference saturates; a zero bound is off. */
  predicate Past(now: nat, since: nat, bound: nat) {
    bound != 0 && SatSub(now, since) >= bound
  }

  predicate Expired(h: Held, now: nat) {
    Past(now, h.read, h.idle) || Past(now, h.stored, h.maxAge)
  }

  datatype Event =
    | Put(key: Key, secret: Secret, idle: nat, maxAge: nat, at: nat)
    | Get(key: Key, at: nat)
    | Remove(key: Key, at: nat)
    | Clear(at: nat)
    | Sweep(at: nat)

  type Store = map<Key, Held>

  /** The state an event leaves. */
  function After(m: Store, e: Event): Store {
    match e
    case Put(k, s, idle, maxAge, now) => m[k := Held(s, now, now, idle, maxAge)]
    case Get(k, now) =>
      if k !in m then m
      else if Expired(m[k], now) then m - {k}
      else m[k := m[k].(read := now)]
    case Remove(k, _) => m - {k}
    case Clear(_) => map[]
    case Sweep(now) => map k | k in m && !Expired(m[k], now) :: m[k]
  }

  /** The secret under `k` that a read at `now` would be given. */
  function Live(m: Store, k: Key, now: nat): Option<Held> {
    if k in m && !Expired(m[k], now) then Some(m[k]) else None
  }

  /** What a `get` answers. */
  function Answer(m: Store, k: Key, now: nat): Option<Secret> {
    match Live(m, k, now)
    case Some(h) => Some(h.secret)
    case None => None
  }

  class SecretStore {
    const idle: nat
    const maxAge: nat
    var secrets: Store

    constructor (idle: nat, maxAge: nat)
      ensures secrets == map[] && this.idle == idle && this.maxAge == maxAge
    {
      this.idle, this.maxAge, secrets := idle, maxAge, map[];
    }

    method PutWith(key: Key, secret: Secret, idle: nat, maxAge: nat, now: nat)
      modifies this
      ensures secrets == After(old(secrets), Event.Put(key, secret, idle, maxAge, now))
      ensures Answer(secrets, key, now) == Some(secret)
    {
      secrets := secrets[key := Held(secret, now, now, idle, maxAge)];
    }

    /** With the store's own limits. */
    method Put(key: Key, secret: Secret, now: nat)
      modifies this
      ensures secrets == After(old(secrets), Event.Put(key, secret, idle, maxAge, now))
    {
      PutWith(key, secret, idle, maxAge, now);
    }

    method Get(key: Key, now: nat) returns (r: Option<Secret>)
      modifies this
      ensures r == Answer(old(secrets), key, now)
      ensures secrets == After(old(secrets), Event.Get(key, now))
    {
      if key !in secrets {
        return None;
      }
      if Expired(secrets[key], now) {
        secrets := secrets - {key};
        return None;
      }
      secrets := secrets[key := secrets[key].(read := now)];
      return Some(secrets[key].secret);
    }

    method Remove(key: Key, now: nat)
      modifies this
      ensures secrets == After(old(secrets), Event.Remove(key, now))
    {
      secrets := secrets - {key};
    }

    method Clear(now: nat)
      modifies this
      ensures secrets == After(old(secrets), Event.Clear(now))
    {
      secrets := map[];
    }

    method Sweep(now: nat)
      modifies this
      ensures secrets == After(old(secrets), Event.Sweep(now))
      ensures forall k :: Live(secrets, k, now) == Live(old(secrets), k, now)
      ensures forall k :: k in secrets <==> Live(old(secrets), k, now).Some?
    {
      secrets := map k | k in secrets && !Expired(secrets[k], now) :: secrets[k];
    }
  }

  /** Clock samples never go back, in lock order. */
  predicate Ordered(h: seq<Event>) {
    forall i, j :: 0 <= i < j < |h| ==> h[i].at <= h[j].at
  }

  function StoreAfter(h: seq<Event>): Store {
    if h == [] then map[] else After(StoreAfter(h[..|h| - 1]), h[|h| - 1])
  }

  // ---- What a get answers, without a store ----

  /** `h[p]` is the put of `k` that is still in force after `h`. */
  ghost predicate Latest(h: seq<Event>, k: Key, p: int) {
    && 0 <= p < |h| && h[p].Put? && h[p].key == k
    && forall i :: p < i < |h| ==> !h[i].Clear? && !((h[i].Put? || h[i].Remove?) && h[i].key == k)
  }

  /** The put, or a read of `k` after it. */
  ghost predicate Use(h: seq<Event>, k: Key, p: int, i: int) {
    0 <= i < |h| && (i == p || (p < i && h[i].Get? && h[i].key == k))
  }

  ghost predicate Successive(h: seq<Event>, k: Key, p: int, i: int, j: int) {
    i < j && Use(h, k, p, i) && Use(h, k, p, j) && forall m :: i < m < j ==> !Use(h, k, p, m)
  }

  ghost predicate LastUse(h: seq<Event>, k: Key, p: int, u: int) {
    Use(h, k, p, u) && forall m :: Use(h, k, p, m) ==> m <= u
  }

  /** No two successive uses are an idle bound apart. */
  ghost predicate GapsOk(h: seq<Event>, k: Key, p: int)
    requires 0 <= p < |h| && h[p].Put?
  {
    h[p].idle != 0 ==> forall i, j :: Successive(h, k, p, i, j) ==> h[j].at - h[i].at < h[p].idle
  }

  /** The put at `p` is in force at `now`: every gap between uses, the one up to `now` included, is
      below its idle bound, and its age is below its maximum. Sweeps do not occur in this. */
  ghost predicate Survives(h: seq<Event>, k: Key, p: int, now: int) {
    && Latest(h, k, p)
    && GapsOk(h, k, p)
    && (h[p].idle != 0 ==> forall u :: LastUse(h, k, p, u) ==> now - h[u].at < h[p].idle)
    && (h[p].maxAge != 0 ==> now - h[p].at < h[p].maxAge)
  }

  // ---- The store meets it ----

  /** The store's record of `k` is the put at `p`, last used at `u`. */
  ghost predicate Describes(h: seq<Event>, k: Key, p: int, u: int, held: Held) {
    && Latest(h, k, p) && LastUse(h, k, p, u) && GapsOk(h, k, p)
    && held == Held(h[p].secret, h[p].at, h[u].at, h[p].idle, h[p].maxAge)
  }

  ghost predicate Faithful(h: seq<Event>, k: Key, m: Store) {
    if k in m then exists p, u :: Describes(h, k, p, u, m[k])
    else forall p, now: nat :: (forall i :: 0 <= i < |h| ==> h[i].at <= now) ==> !Survives(h, k, p, now)
  }

  lemma DescribedSurvives(h: seq<Event>, k: Key, p: int, u: int, held: Held, now: nat)
    requires Ordered(h) && Describes(h, k, p, u, held)
    requires forall i :: 0 <= i < |h| ==> h[i].at <= now
    ensures Survives(h, k, p, now) <==> !Expired(held, now)
    ensures forall q :: Survives(h, k, q, now) ==> q == p
  {
    assert h[p].at <= now && h[u].at <= now;
    assert forall q :: Latest(h, k, q) ==> q == p;
    assert forall v :: LastUse(h, k, p, v) ==> v == u;
  }

  /** Uses and gaps of a prefix are those of the whole history below its end. */
  lemma UsesOfPrefix(h: seq<Event>, e: Event, k: Key, p: int)
    requires 0 <= p < |h|
    ensures forall i :: i < |h| ==> (Use(h + [e], k, p, i) <==> Use(h, k, p, i))
    ensures forall i, j :: j < |h| ==> (Successive(h + [e], k, p, i, j) <==> Successive(h, k, p, i, j))
  {
  }

  /** An event that is no use of `k` and does not end it leaves it as described. */
  lemma StillDescribes(h: seq<Event>, e: Event, k: Key, p: int, u: int, held: Held)
    requires Describes(h, k, p, u, held) && !e.Clear? && !((e.Put? || e.Remove? || e.Get?) && e.key == k)
    ensures Describes(h + [e], k, p, u, held)
  {
    UsesOfPrefix(h, e, k, p);
    assert !Use(h + [e], k, p, |h|);
    forall i, j | Successive(h + [e], k, p, i, j) ensures Successive(h, k, p, i, j) { }
  }

  /** What survives an event survived up to it. */
  lemma SurvivedBefore(h: seq<Event>, e: Event, k: Key, p: int, now: int)
    requires Ordered(h + [e]) && 0 <= p < |h| && e.at <= now && Survives(h + [e], k, p, now)
    ensures Survives(h, k, p, e.at)
  {
    var h' := h + [e];
    assert h'[|h|] == e && forall i :: 0 <= i < |h| ==> h'[i] == h[i];
    UsesOfPrefix(h, e, k, p);
    forall i, j | Successive(h, k, p, i, j) ensures Successive(h', k, p, i, j) { }
    forall u | LastUse(h, k, p, u) && h[p].idle != 0 ensures e.at - h[u].at < h[p].idle {
      if Use(h', k, p, |h|) {
        assert Successive(h', k, p, u, |h|);
      } else {
        assert LastUse(h', k, p, u);
      }
    }
  }

  /** A read that finds the secret continues its uses. */
  lemma ReadContinues(h: seq<Event>, k: Key, p: int, u: int, held: Held, now: nat)
    requires Ordered(h + [Event.Get(k, now)]) && Describes(h, k, p, u, held) && !Expired(held, now)
    ensures Describes(h + [Event.Get(k, now)], k, p, |h|, held.(read := now))
  {
    var h' := h + [Event.Get(k, now)];
    assert h'[|h|].at == now && forall i :: 0 <= i < |h| ==> h'[i] == h[i];
    UsesOfPrefix(h, Event.Get(k, now), k, p);
    assert Use(h', k, p, |h|) && h'[u].at <= now;
    forall i, j | Successive(h', k, p, i, j) && h[p].idle != 0 ensures h'[j].at - h'[i].at < h[p].idle {
      if j < |h| {
        assert Successive(h, k, p, i, j);
      } else {
        assert Use(h', k, p, u);
        assert i == u;
      }
    }
  }

  lemma FaithfulStep(h: seq<Event>, e: Event, k: Key, m: Store)
    requires Ordered(h + [e]) && Faithful(h, k, m)
    ensures Faithful(h + [e], k, After(m, e))
  {
    var h', m' := h + [e], After(m, e);
    assert h'[|h|] == e && forall i :: 0 <= i < |h| ==> h'[i] == h[i] && h[i].at <= e.at;
    if k in m {
      var p, u :| Describes(h, k, p, u, m[k]);
      if k in m' && !((e.Put? || e.Get?) && e.key == k) {
        StillDescribes(h, e, k, p, u, m[k]);
      } else if k in m' && e.Get? {
        ReadContinues(h, k, p, u, m[k], e.at);
      }
    }
    if e.Put? && e.key == k {
      assert Describes(h', k, |h|, |h|, m'[k]);
    } else if k !in m' {
      forall p, now: nat | (forall i :: 0 <= i < |h'| ==> h'[i].at <= now) && Survives(h', k, p, now) ensures false {
        assert p < |h|;
        SurvivedBefore(h, e, k, p, now);
        if k in m {
          var q, u :| Describes(h, k, q, u, m[k]);
          DescribedSurvives(h, k, q, u, m[k], e.at);
        }
      }
    }
  }

  lemma {:induction false} StoreIsFaithful(h: seq<Event>, k: Key)
    requires Ordered(h)
    ensures Faithful(h, k, StoreAfter(h))
  {
    if h != [] {
      var front := h[..|h| - 1];
      StoreIsFaithful(front, k);
      assert h == front + [h[|h| - 1]];
      FaithfulStep(front, h[|h| - 1], k, StoreAfter(front));
    }
  }

  /** After any history whose clock samples do not go back, sweeps included, a read of `k` gets a
      secret exactly when that secret's put survives. */
  lemma GetMeetsSpecification(h: seq<Event>, k: Key, now: nat, secret: Secret)
    requires Ordered(h) && forall i :: 0 <= i < |h| ==> h[i].at <= now
    ensures Answer(StoreAfter(h), k, now) == Some(secret)
       <==> exists p :: Survives(h, k, p, now) && h[p].secret == secret
  {
    StoreIsFaithful(h, k);
    var m := StoreAfter(h);
    if k in m {
      var p, u :| Describes(h, k, p, u, m[k]);
      DescribedSurvives(h, k, p, u, m[k], now);
      assert m[k].secret == h[p].secret;
    }
  }

  /** Live and of no use any more are one or the other: a record that is expired is of no surviving
      put, and one that is not is of the only one. */
  lemma RecordSurvives(h: seq<Event>, k: Key, now: nat)
    requires Ordered(h) && forall i :: 0 <= i < |h| ==> h[i].at <= now
    ensures k in StoreAfter(h) && !Expired(StoreAfter(h)[k], now) <==> exists p :: Survives(h, k, p, now)
  {
    StoreIsFaithful(h, k);
    if k in StoreAfter(h) {
      var p, u :| Describes(h, k, p, u, StoreAfter(h)[k]);
      DescribedSurvives(h, k, p, u, StoreAfter(h)[k], now);
    }
  }

  lemma Extended(h: seq<Event>, e: Event)
    ensures StoreAfter(h + [e]) == After(StoreAfter(h), e)
  {
    assert (h + [e])[..|h|] == h;
  }

  /** A sweep leaves no expired secret in memory and takes no other: after every history that ends
      in one, a key is in the store exactly when a put of it survives at that time. */
  lemma SweepLeavesSurvivors(h: seq<Event>, k: Key, now: nat)
    requires Ordered(h + [Event.Sweep(now)])
    ensures k in StoreAfter(h + [Event.Sweep(now)]) <==> exists p :: Survives(h, k, p, now)
    ensures k in StoreAfter(h + [Event.Sweep(now)]) ==>
              k in StoreAfter(h) && StoreAfter(h + [Event.Sweep(now)])[k] == StoreAfter(h)[k]
  {
    var h' := h + [Event.Sweep(now)];
    assert h'[|h|].at == now && forall i :: 0 <= i < |h| ==> h'[i] == h[i];
    RecordSurvives(h, k, now);
    Extended(h, Event.Sweep(now));
  }

  /** A read that finds its own secret expired takes it out of memory; after a read the key is in the
      store exactly when a put of it survived then, and no other key is touched. */
  lemma GetDropsTheExpired(h: seq<Event>, k: Key, now: nat, other: Key)
    requires Ordered(h + [Event.Get(k, now)])
    ensures var after := StoreAfter(h + [Event.Get(k, now)]);
            && (k in after <==> exists p :: Survives(h, k, p, now))
            && (other != k ==> (other in after <==> other in StoreAfter(h))
                               && (other in after ==> after[other] == StoreAfter(h)[other]))
  {
    var h' := h + [Event.Get(k, now)];
    assert h'[|h|].at == now && forall i :: 0 <= i < |h| ==> h'[i] == h[i];
    RecordSurvives(h, k, now);
    Extended(h, Event.Get(k, now));
  }

  // ---- Sweeps cannot be observed ----

  function Answers(m: Store, h: seq<Event>): seq<Option<Secret>>
    decreases |h|
  {
    if h == [] then []
    else (if h[0].Get? then [Answer(m, h[0].key, h[0].at)] else []) + Answers(After(m, h[0]), h[1..])
  }

  function WithoutSweeps(h: seq<Event>): (r: seq<Event>)
    ensures forall i :: 0 <= i < |r| ==> r[i] in h && !r[i].Sweep?
  {
    if h == [] then [] else (if h[0].Sweep? then [] else [h[0]]) + WithoutSweeps(h[1..])
  }

  /** Two stores that no read at `now` or later can tell apart. */
  ghost predicate Alike(m: Store, n: Store, now: nat) {
    forall k, t :: t >= now ==> Live(m, k, t) == Live(n, k, t)
  }

  lemma LiveAfter(m: Store, n: Store, e: Event, k: Key, t: nat)
    requires Alike(m, n, e.at) && e.at <= t
    ensures Live(After(m, e), k, t) == Live(After(n, e), k, t)
    ensures Live(After(m, Event.Sweep(e.at)), k, t) == Live(m, k, t)
  {
    assert Live(m, k, t) == Live(n, k, t);
    assert Live(m, k, e.at) == Live(n, k, e.at);
  }

  lemma {:induction false} SweepsAreUnobservableFrom(m: Store, n: Store, h: seq<Event>, now: nat)
    requires Ordered(h) && Alike(m, n, now) && forall i :: 0 <= i < |h| ==> now <= h[i].at
    ensures Answers(m, h) == Answers(n, WithoutSweeps(h))
    decreases |h|
  {
    if h == [] {
    } else {
      var e := h[0];
      assert Alike(m, n, e.at);
      forall k, t | t >= e.at
        ensures Live(After(m, e), k, t) == Live(if e.Sweep? then n else After(n, e), k, t)
      {
        LiveAfter(m, n, e, k, t);
        assert Live(m, k, t) == Live(n, k, t);
      }
      if e.Get? { assert Live(m, e.key, e.at) == Live(n, e.key, e.at); }
      SweepsAreUnobservableFrom(After(m, e), if e.Sweep? then n else After(n, e), h[1..], e.at);
      if e.Sweep? {
        assert WithoutSweeps(h) == WithoutSweeps(h[1..]);
      } else {
        assert WithoutSweeps(h)[0] == e && WithoutSweeps(h)[1..] == WithoutSweeps(h[1..]);
      }
    }
  }

  /** Every read in a history is answered as if no sweep had ever run; so any two schedules of
      sweeps give the same answers. */
  lemma SweepsAreUnobservable(h: seq<Event>)
    requires Ordered(h)
    ensures Answers(map[], h) == Answers(map[], WithoutSweeps(h))
  {
    SweepsAreUnobservableFrom(map[], map[], h, 0);
  }
}
