/**
 Pool capacity: the limit of the healthy peers, the static maximum of all peers, and the limit that
 admission enforces, which lies below both.
 */
module Capacity {
  import opened AdaptiveCc
  import opened Wrappers

  // `{ip, port, weight, priority, max}`: an absent priority is 0, an absent maximum the route's default.
  datatype Peer = Peer(key: string, priority: Option<int>, max: Option<real>)
  {
    function Tier(): int {
      if priority.Some? then priority.value else 0
    }

    function Cap(dflt: real): real {
      if max.Some? then max.value else dflt
    }
  }

  /** What one priority tier can take. */
  function TierCap(peers: seq<Peer>, dflt: real, tier: int): real {
    if peers == [] then 0.0
    else
      var n := |peers| - 1;
      TierCap(peers[..n], dflt, tier) + if peers[n].Tier() == tier then peers[n].Cap(dflt) else 0.0
  }

  // The capacity of a pool is that of its largest tier: lower tiers serve only when higher ones are gone.
  predicate IsLargestTier(peers: seq<Peer>, dflt: real, limit: real) {
    && limit >= 0.0
    && (forall p :: p in peers ==> TierCap(peers, dflt, p.Tier()) <= limit)
    && (limit == 0.0 || exists p :: p in peers && TierCap(peers, dflt, p.Tier()) == limit)
  }

  predicate NonNegativeCaps(peers: seq<Peer>, dflt: real) {
    forall p :: p in peers ==> p.Cap(dflt) >= 0.0
  }

  lemma {:induction false} EmptyTier(peers: seq<Peer>, dflt: real, tier: int)
    requires forall p :: p in peers ==> p.Tier() != tier
    ensures TierCap(peers, dflt, tier) == 0.0
  {
    if peers != [] {
      var n := |peers| - 1;
      assert peers[n] in peers;
      EmptyTier(peers[..n], dflt, tier);
    }
  }

  method SumTiers(peers: seq<Peer>, dflt: real) returns (capByPrio: map<int, real>)
    ensures forall t :: t in capByPrio ==> capByPrio[t] == TierCap(peers, dflt, t)
    ensures forall t :: t in capByPrio ==> exists p :: p in peers && p.Tier() == t
    ensures forall p :: p in peers ==> p.Tier() in capByPrio
  {
    capByPrio := map[];
    for i := 0 to |peers|
      invariant forall t :: t in capByPrio ==> capByPrio[t] == TierCap(peers[..i], dflt, t)
      invariant forall t :: t in capByPrio ==> exists p :: p in peers && p.Tier() == t
      invariant forall j :: 0 <= j < i ==> peers[j].Tier() in capByPrio
    {
      var t := peers[i].Tier();
      assert peers[..i + 1][..i] == peers[..i];
      if t !in capByPrio {
        EmptyTier(peers[..i], dflt, t);
      }
      capByPrio := capByPrio[t := (if t in capByPrio then capByPrio[t] else 0.0) + peers[i].Cap(dflt)];
    }
    assert peers[..|peers|] == peers;
  }

  method AnyOf<T>(s: set<T>) returns (t: T)
    requires s != {}
    ensures t in s
  {
    t :| t in s;
  }

  method LargestOf(capByPrio: map<int, real>) returns (limit: real)
    ensures limit >= 0.0
    ensures forall t :: t in capByPrio ==> capByPrio[t] <= limit
    ensures limit == 0.0 || exists t :: t in capByPrio && capByPrio[t] == limit
  {
    limit := 0.0;
    ghost var largest := 0;
    var todo := capByPrio.Keys;
    while todo != {}
      invariant todo <= capByPrio.Keys && limit >= 0.0
      invariant forall t :: t in capByPrio && t !in todo ==> capByPrio[t] <= limit
      invariant limit == 0.0 || (largest in capByPrio && capByPrio[largest] == limit)
      decreases todo
    {
      var t := AnyOf(todo);
      todo := todo - {t};
      if capByPrio[t] > limit {
        limit, largest := capByPrio[t], t;
      }
    }
  }

  /** The largest tier total, by one pass that adds up tiers and one that compares them. */
  method LargestTier(peers: seq<Peer>, dflt: real) returns (limit: real)
    ensures IsLargestTier(peers, dflt, limit)
  {
    var capByPrio := SumTiers(peers, dflt);
    limit := LargestOf(capByPrio);
  }

  /** `compute_static_max_cc`: what the pool could take with no peer banned. */
  method StaticMax(peers: seq<Peer>, dflt: real) returns (maxcc: real)
    ensures if peers == [] then maxcc == dflt else IsLargestTier(peers, dflt, maxcc)
  {
    if |peers| == 0 {
      return dflt;
    }
    maxcc := LargestTier(peers, dflt);
  }

  function Unbanned(peers: seq<Peer>, banned: set<string>): seq<Peer> {
    if peers == [] then []
    else
      var n := |peers| - 1;
      Unbanned(peers[..n], banned) + if peers[n].key in banned then [] else [peers[n]]
  }

  datatype Assessment = Empty | Assessed(activeLevel: int, healthy: seq<Peer>, serving: seq<Peer>, limit: real)

  method Healthy(peers: seq<Peer>, banned: set<string>) returns (healthy: seq<Peer>)
    ensures healthy == Unbanned(peers, banned)
  {
    healthy := [];
    for i := 0 to |peers|
      invariant healthy == Unbanned(peers[..i], banned)
    {
      assert peers[..i + 1][..i] == peers[..i];
      assert healthy + [] == healthy;
      if peers[i].key !in banned {
        healthy := healthy + [peers[i]];
      }
    }
    assert peers[..|peers|] == peers;
  }

  method HighestTier(healthy: seq<Peer>) returns (level: int)
    requires healthy != []
    ensures exists p :: p in healthy && p.Tier() == level
    ensures forall p :: p in healthy ==> p.Tier() <= level
  {
    level := healthy[0].Tier();
    for i := 0 to |healthy|
      invariant exists p :: p in healthy && p.Tier() == level
      invariant forall j :: 0 <= j < i ==> healthy[j].Tier() <= level
    {
      if healthy[i].Tier() > level {
        level := healthy[i].Tier();
      }
    }
  }

  method OfTier(healthy: seq<Peer>, level: int) returns (serving: seq<Peer>)
    ensures forall p :: p in serving <==> p in healthy && p.Tier() == level
  {
    serving := [];
    for i := 0 to |healthy|
      invariant forall p :: p in serving <==> p in healthy[..i] && p.Tier() == level
    {
      assert healthy[..i + 1] == healthy[..i] + [healthy[i]];
      if healthy[i].Tier() == level {
        serving := serving + [healthy[i]];
      }
    }
    assert healthy[..|healthy|] == healthy;
  }

  /** `assess_pool`: the healthy peers, those of the highest tier among them, and the capacity. */
  method AssessPool(peers: seq<Peer>, banned: set<string>, dflt: real) returns (a: Assessment)
    ensures a.Empty? <==> Unbanned(peers, banned) == []
    ensures a.Assessed? ==>
      && a.healthy == Unbanned(peers, banned) && IsLargestTier(a.healthy, dflt, a.limit)
      && (forall p :: p in a.serving <==> p in a.healthy && p.Tier() == a.activeLevel)
      && (forall p :: p in a.healthy ==> p.Tier() <= a.activeLevel) && a.serving != []
  {
    var healthy := Healthy(peers, banned);
    if |healthy| == 0 {
      return Empty;
    }
    var level := HighestTier(healthy);
    var serving := OfTier(healthy, level);
    var limit := LargestTier(healthy, dflt);
    a := Assessed(level, healthy, serving, limit);
  }

  /** What a tier could reach if the peers that pull it down were banned. */
  function PositiveTierCap(peers: seq<Peer>, dflt: real, tier: int): real {
    if peers == [] then 0.0
    else
      var n := |peers| - 1;
      PositiveTierCap(peers[..n], dflt, tier)
      + if peers[n].Tier() == tier && peers[n].Cap(dflt) > 0.0 then peers[n].Cap(dflt) else 0.0
  }

  predicate PositivesFit(peers: seq<Peer>, dflt: real, maxcc: real) {
    forall p :: p in peers ==> PositiveTierCap(peers, dflt, p.Tier()) <= maxcc
  }

  predicate DistinctKeys(peers: seq<Peer>) {
    forall i, j :: 0 <= i < j < |peers| ==> peers[i].key != peers[j].key
  }

  // Whichever peers are banned, the healthy capacity is at most `maxcc`.
  ghost predicate NoBanRaises(peers: seq<Peer>, dflt: real, maxcc: real) {
    forall banned, limit :: IsLargestTier(Unbanned(peers, banned), dflt, limit) ==> limit <= maxcc
  }

  lemma {:induction false} UnbannedMembers(peers: seq<Peer>, banned: set<string>)
    ensures forall p :: p in Unbanned(peers, banned) <==> p in peers && p.key !in banned
  {
    if peers != [] {
      var n := |peers| - 1;
      UnbannedMembers(peers[..n], banned);
      assert peers == peers[..n] + [peers[n]];
    }
  }

  /** A peer adds its own maximum, or the default when it has none, to its own tier, or to tier 0 when it names none. */
  lemma TierCapSnoc(peers: seq<Peer>, p: Peer, dflt: real, tier: int)
    ensures TierCap(peers + [p], dflt, tier) == TierCap(peers, dflt, tier) + if p.Tier() == tier then p.Cap(dflt) else 0.0
    ensures p.priority == Some(tier) || (p.priority.None? && tier == 0) ==>
      TierCap(peers + [p], dflt, tier) - TierCap(peers, dflt, tier) == if p.max.Some? then p.max.value else dflt
    ensures p.priority != Some(tier) && (p.priority.None? ==> tier != 0) ==>
      TierCap(peers + [p], dflt, tier) == TierCap(peers, dflt, tier)
  {
    assert (peers + [p])[..|peers|] == peers;
  }

  lemma {:induction false} UnbannedBelowPositive(peers: seq<Peer>, banned: set<string>, dflt: real, tier: int)
    ensures TierCap(Unbanned(peers, banned), dflt, tier) <= PositiveTierCap(peers, dflt, tier)
    ensures PositiveTierCap(peers, dflt, tier) >= 0.0
  {
    if peers != [] {
      var n := |peers| - 1;
      UnbannedBelowPositive(peers[..n], banned, dflt, tier);
      var u := Unbanned(peers[..n], banned);
      assert u + [] == u;
      TierCapSnoc(u, peers[n], dflt, tier);
    }
  }

  // The peers of a tier that take more away than they give.
  function Burdens(peers: seq<Peer>, dflt: real, tier: int): set<string> {
    set p | p in peers && p.Tier() == tier && p.Cap(dflt) <= 0.0 :: p.key
  }

  // With exactly those banned, the tier reaches its positive sum.
  lemma {:induction false} WithoutBurdens(peers: seq<Peer>, banned: set<string>, dflt: real, tier: int)
    requires forall p :: p in peers && p.Tier() == tier ==> (p.key in banned <==> p.Cap(dflt) <= 0.0)
    ensures TierCap(Unbanned(peers, banned), dflt, tier) == PositiveTierCap(peers, dflt, tier)
  {
    if peers != [] {
      var n := |peers| - 1;
      assert peers[n] in peers;
      WithoutBurdens(peers[..n], banned, dflt, tier);
      var u := Unbanned(peers[..n], banned);
      assert u + [] == u;
      TierCapSnoc(u, peers[n], dflt, tier);
    }
  }

  lemma LargestTierExists(peers: seq<Peer>, dflt: real) returns (limit: real)
    ensures IsLargestTier(peers, dflt, limit)
  {
    limit := 0.0;
    var i, at := 0, 0;
    while i < |peers|
      invariant 0 <= i <= |peers| && limit >= 0.0
      invariant forall j :: 0 <= j < i ==> TierCap(peers, dflt, peers[j].Tier()) <= limit
      invariant limit == 0.0 || (0 <= at < i && TierCap(peers, dflt, peers[at].Tier()) == limit)
    {
      var cap := TierCap(peers, dflt, peers[i].Tier());
      if cap > limit {
        limit, at := cap, i;
      }
      i := i + 1;
    }
    if limit != 0.0 {
      assert peers[at] in peers;
    }
  }

  /** Whatever is banned, the capacity of the rest is at most the static maximum, if the positive maxima fit. */
  lemma HealthyBelowStatic(peers: seq<Peer>, banned: set<string>, dflt: real, limit: real, maxcc: real)
    requires IsLargestTier(Unbanned(peers, banned), dflt, limit) && IsLargestTier(peers, dflt, maxcc)
    requires PositivesFit(peers, dflt, maxcc)
    ensures limit <= maxcc
  {
    if limit != 0.0 {
      var u := Unbanned(peers, banned);
      var p :| p in u && TierCap(u, dflt, p.Tier()) == limit;
      UnbannedMembers(peers, banned);
      UnbannedBelowPositive(peers, banned, dflt, p.Tier());
    }
  }

  // A tier whose positive maxima alone exceed the static maximum, and the ban that lets it.
  lemma BurdenBanRaises(peers: seq<Peer>, dflt: real, maxcc: real, p: Peer) returns (banned: set<string>, limit: real)
    requires DistinctKeys(peers) && IsLargestTier(peers, dflt, maxcc)
    requires p in peers && PositiveTierCap(peers, dflt, p.Tier()) > maxcc
    ensures IsLargestTier(Unbanned(peers, banned), dflt, limit) && limit > maxcc
  {
    banned := Burdens(peers, dflt, p.Tier());
    forall q | q in peers && q.Tier() == p.Tier()
      ensures q.key in banned <==> q.Cap(dflt) <= 0.0
    {
      if q.key in banned {
        var r :| r in peers && r.Tier() == p.Tier() && r.Cap(dflt) <= 0.0 && r.key == q.key;
        assert q == r;
      }
    }
    WithoutBurdens(peers, banned, dflt, p.Tier());
    var u := Unbanned(peers, banned);
    limit := LargestTierExists(u, dflt);
    if forall q :: q in u ==> q.Tier() != p.Tier() {
      EmptyTier(u, dflt, p.Tier());
      assert false;
    }
  }

  /**
   Exactly when the bound holds: no set of bans raises the capacity above the static maximum if and only
   if the positive maxima of every tier add up to at most that.
   */
  lemma NoBanRaisesExactly(peers: seq<Peer>, dflt: real, maxcc: real)
    requires DistinctKeys(peers) && IsLargestTier(peers, dflt, maxcc)
    ensures NoBanRaises(peers, dflt, maxcc) <==> PositivesFit(peers, dflt, maxcc)
  {
    if PositivesFit(peers, dflt, maxcc) {
      forall banned, limit | IsLargestTier(Unbanned(peers, banned), dflt, limit)
        ensures limit <= maxcc
      {
        HealthyBelowStatic(peers, banned, dflt, limit, maxcc);
      }
    } else {
      var p :| p in peers && PositiveTierCap(peers, dflt, p.Tier()) > maxcc;
      var banned, limit := BurdenBanRaises(peers, dflt, maxcc, p);
      assert IsLargestTier(Unbanned(peers, banned), dflt, limit);
    }
  }

  lemma {:induction false} PositiveIsAll(peers: seq<Peer>, dflt: real, tier: int)
    requires NonNegativeCaps(peers, dflt)
    ensures PositiveTierCap(peers, dflt, tier) == TierCap(peers, dflt, tier)
  {
    if peers != [] {
      assert peers[|peers| - 1] in peers;
      PositiveIsAll(peers[..|peers| - 1], dflt, tier);
    }
  }

  /** In particular they fit when no maximum is negative. */
  lemma NonNegativesFit(peers: seq<Peer>, dflt: real, maxcc: real)
    requires NonNegativeCaps(peers, dflt) && IsLargestTier(peers, dflt, maxcc)
    ensures PositivesFit(peers, dflt, maxcc)
  {
    forall p | p in peers
      ensures PositiveTierCap(peers, dflt, p.Tier()) <= maxcc
    {
      PositiveIsAll(peers, dflt, p.Tier());
    }
  }

  // What the gate multiplies the limit with: the route's factor and, with session priorities on, the share
  // of the request's bucket. Registration lets through a positive factor and shares above 0 and up to 1.
  function Scale(factor: real, share: Option<real>): real {
    if share.Some? then factor * share.value else factor
  }

  function Scaled(limit: real, factor: real, share: Option<real>): real {
    if share.Some? then (limit * factor) * share.value else limit * factor
  }

  predicate Legal(factor: real, share: Option<real>) {
    factor > 0.0 && (share.Some? ==> 0.0 < share.value <= 1.0)
  }

  lemma ScaledIsProduct(limit: real, factor: real, share: Option<real>)
    ensures Scaled(limit, factor, share) == if share.Some? then (limit * factor) * share.value else limit * factor
  {
  }

  lemma ScaledIsTimes(limit: real, factor: real, share: Option<real>)
    ensures Scaled(limit, factor, share) == limit * Scale(factor, share)
  {
  }

  lemma ScaleAtMostOne(limit: real, scale: real, pool: real)
    requires 0.0 < scale <= 1.0 && 0.0 <= pool && limit <= pool
    ensures limit * scale <= pool
  {
    if limit >= 0.0 {
      assert limit * scale <= limit * 1.0;
    } else {
      assert limit * scale <= 0.0;
    }
  }

  lemma ScaleAboveOne(limit: real, scale: real)
    requires limit > 0.0 && scale > 1.0
    ensures limit * scale > limit
  {
  }

  lemma LegalScale(factor: real, share: Option<real>)
    requires Legal(factor, share)
    ensures Scale(factor, share) > 0.0
  {
  }

  predicate StaysWithin(limit: real, pool: real, factor: real, share: Option<real>) {
    0.0 <= limit <= pool ==> Scaled(limit, factor, share) <= pool
  }

  /**
   Exactly when the gate stays within the pool, whatever pool and limit within it: factor and share
   together are at most 1. A factor above 1 lets more in than the peers take.
   */
  lemma ScaledFitsExactly(factor: real, share: Option<real>)
    requires Legal(factor, share)
    ensures (forall limit, pool :: StaysWithin(limit, pool, factor, share)) <==> Scale(factor, share) <= 1.0
  {
    LegalScale(factor, share);
    if Scale(factor, share) <= 1.0 {
      forall limit, pool
        ensures StaysWithin(limit, pool, factor, share)
      {
        if 0.0 <= limit <= pool {
          ScaledIsTimes(limit, factor, share);
          ScaleAtMostOne(limit, Scale(factor, share), pool);
        }
      }
    } else {
      ScaledIsTimes(1.0, factor, share);
      ScaleAboveOne(1.0, Scale(factor, share));
      assert !StaysWithin(1.0, 1.0, factor, share);
    }
  }

  datatype Verdict = Unavailable | Limited(limit: real, pool: real)

  /**
   The limit of `do_route` before it is scaled: the controller's, or its start point while there is none,
   capped by the capacity of the healthy peers; the whole capacity when speed limits are off.
   */
  method PoolLimit(o: Options, adaptive: bool, tpsOn: bool, cc: Option<real>,
                   peers: seq<Peer>, banned: set<string>, dflt: real) returns (v: Verdict)
    requires o.Registered()
    ensures v.Unavailable? <==> Unbanned(peers, banned) == []
    ensures v.Limited? ==> v.limit <= v.pool && IsLargestTier(Unbanned(peers, banned), dflt, v.pool)
    ensures v.Limited? && !(adaptive && tpsOn) ==> v.limit == v.pool
    ensures v.Limited? && adaptive && tpsOn && cc.Some? ==> v.limit == MinOf(cc.value, v.pool)
    ensures v.Limited? && adaptive && tpsOn && cc.None? ==>
      forall maxcc :: IsLargestTier(peers, dflt, maxcc) ==>
        v.limit == MinOf(DeriveInit(o, maxcc, DeriveMin(o, maxcc)), v.pool)
    ensures v.Limited? ==>
      forall maxcc :: IsLargestTier(peers, dflt, maxcc) && PositivesFit(peers, dflt, maxcc) ==> v.limit <= v.pool <= maxcc
  {
    var a := AssessPool(peers, banned, dflt);
    if a.Empty? {
      return Unavailable;
    }
    var limit := a.limit;
    if adaptive && tpsOn {
      var maxcc := StaticMax(peers, dflt);
      var initcc := DeriveInit(o, maxcc, DeriveMin(o, maxcc));
      limit := MinOf(if cc.Some? then cc.value else initcc, a.limit);
      LargestTierUnique(peers, dflt, maxcc);
    }
    v := Limited(limit, a.limit);
    forall maxcc | IsLargestTier(peers, dflt, maxcc) && PositivesFit(peers, dflt, maxcc)
      ensures a.limit <= maxcc
    {
      HealthyBelowStatic(peers, banned, dflt, a.limit, maxcc);
    }
  }

  lemma GateWithinPool(limit: real, pool: real, factor: real, share: Option<real>)
    requires Legal(factor, share) && 0.0 <= pool && limit <= pool
    ensures Scale(factor, share) <= 1.0 ==> Scaled(limit, factor, share) <= pool
    ensures limit == pool > 0.0 ==> (Scaled(limit, factor, share) <= pool <==> Scale(factor, share) <= 1.0)
  {
    LegalScale(factor, share);
    ScaledIsTimes(limit, factor, share);
    hide Scaled;
    hide Scale;
    if Scale(factor, share) <= 1.0 {
      ScaleAtMostOne(limit, Scale(factor, share), pool);
    } else if limit > 0.0 {
      ScaleAboveOne(limit, Scale(factor, share));
    }
  }

  // `limit` of `pool` before it is scaled, and the `gate` that requests in flight are compared with.
  datatype Gate = Shut | Open(limit: real, pool: real, gate: real)

  /**
   What `do_route` compares the requests in flight with. It is within the pool if factor and share are
   together at most 1, and where the limit is the whole pool only then.
   */
  method EnforcedLimit(o: Options, adaptive: bool, tpsOn: bool, cc: Option<real>,
                       peers: seq<Peer>, banned: set<string>, dflt: real,
                       factor: real, share: Option<real>) returns (g: Gate)
    requires o.Registered() && Legal(factor, share)
    ensures g.Shut? <==> Unbanned(peers, banned) == []
    ensures g.Open? ==> g.limit <= g.pool && IsLargestTier(Unbanned(peers, banned), dflt, g.pool)
    ensures g.Open? && !(adaptive && tpsOn) ==> g.limit == g.pool
    ensures g.Open? && adaptive && tpsOn && cc.Some? ==> g.limit == MinOf(cc.value, g.pool)
    ensures g.Open? && adaptive && tpsOn && cc.None? ==>
      forall maxcc :: IsLargestTier(peers, dflt, maxcc) ==>
        g.limit == MinOf(DeriveInit(o, maxcc, DeriveMin(o, maxcc)), g.pool)
    ensures g.Open? ==>
      forall maxcc :: IsLargestTier(peers, dflt, maxcc) && PositivesFit(peers, dflt, maxcc) ==> g.limit <= g.pool <= maxcc
    ensures g.Open? ==>
      g.gate == if share.Some? then (g.limit * factor) * share.value else g.limit * factor
    ensures g.Open? && Scale(factor, share) <= 1.0 ==> g.gate <= g.pool
    ensures g.Open? && g.limit == g.pool > 0.0 ==> (g.gate <= g.pool <==> Scale(factor, share) <= 1.0)
  {
    hide Scaled, Scale, IsLargestTier, PositivesFit, Unbanned, DeriveInit, DeriveMin;
    var v := PoolLimit(o, adaptive, tpsOn, cc, peers, banned, dflt);
    if v.Unavailable? {
      return Shut;
    }
    ScaledIsProduct(v.limit, factor, share);
    g := Open(v.limit, v.pool, Scaled(v.limit, factor, share));
    GateWithinPool(v.limit, v.pool, factor, share);
  }

  lemma LargestTierUnique(peers: seq<Peer>, dflt: real, x: real)
    requires IsLargestTier(peers, dflt, x)
    ensures forall y :: IsLargestTier(peers, dflt, y) ==> x == y
  {
  }
}
