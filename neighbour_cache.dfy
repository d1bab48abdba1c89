/**
 * The neighbour cache `consensus_info` of the cached consensus laws: the
 * other active vehicles, ordered by their 2D distance to the vehicle with
 * Python's stable `sorted`, cut to the first `consensus_car_count`, each
 * with its headway, speed and acceleration read at rebuild time; and the
 * rule `counter % update_interval == 0` that decides when it is rebuilt.
 *
 * The sort key `np.linalg.norm(p2d - op)` is replaced by the squared
 * distance: `NormOrderAgrees` shows that the two keys order any two
 * vehicles the same way, and `NormKeySortsAlike` that a list is in stable
 * order by one key exactly when it is by the other.
 */
module NeighbourCache {
  import opened Kinematics
  import opened Numerics

  /**
   * One entry of `sorted(zip(other_ids, other_distances))`: the id, its
   * squared distance to the vehicle and its position `rank` in `get_ids()`.
   */
  datatype Candidate = Candidate(id: VehicleId, dist2: real, rank: nat)

  /** One `(vid, c_head, c_vel, c_acc)` tuple of the cache. */
  datatype NeighbourInfo = NeighbourInfo(id: VehicleId, headway: real, speed: real, accel: real)

  function Dist2(p: Pos2, q: Pos2): (d: real)
    ensures d >= 0.0
  {
    var dx := p.x - q.x;
    var dy := p.y - q.y;
    SquareFacts(dx);
    SquareFacts(dy);
    dx * dx + dy * dy
  }

  /**
   * The norm and the squared distance order two vehicles alike: for
   * non-negative norms `n1`, `n2` with squares `d1`, `d2`, `n1 < n2` exactly
   * when `d1 < d2`, and `n1 == n2` exactly when `d1 == d2`. Sorting by
   * either key therefore gives the same stable order.
   */
  lemma NormOrderAgrees(n1: real, n2: real, d1: real, d2: real)
    requires n1 >= 0.0 && n2 >= 0.0 && n1 * n1 == d1 && n2 * n2 == d2
    ensures n1 < n2 <==> d1 < d2
    ensures n1 == n2 <==> d1 == d2
  {
    if n1 < n2 {
      SquareGrows(n1, n2);
    } else if n2 < n1 {
      SquareGrows(n2, n1);
    }
  }

  /** The candidate for the vehicle at position `k` of `get_ids()`. */
  function CandidateAt(env: Snapshot, origin: Pos2, k: nat): Candidate
    requires env.Valid() && k < |env.ids|
  {
    Candidate(env.ids[k], Dist2(origin, env.vehicles[env.ids[k]].position2d), k)
  }

  /**
   * `zip(other_ids, other_distances)` from position `i` of `get_ids()` on:
   * the vehicles other than `self`, in `get_ids()` order.
   */
  function CandidatesFrom(env: Snapshot, self: VehicleId, origin: Pos2, i: nat): (cs: seq<Candidate>)
    requires env.Valid() && i <= |env.ids|
    ensures forall c :: c in cs ==>
      i <= c.rank < |env.ids| && c == CandidateAt(env, origin, c.rank) && c.id != self
    ensures forall a, b :: 0 <= a < b < |cs| ==> cs[a].rank < cs[b].rank
    decreases |env.ids| - i
  {
    if i == |env.ids| then []
    else if env.ids[i] == self then CandidatesFrom(env, self, origin, i + 1)
    else [CandidateAt(env, origin, i)] + CandidatesFrom(env, self, origin, i + 1)
  }

  /** Every vehicle other than `self` from position `i` on is a candidate. */
  lemma {:induction false} CandidatesComplete(env: Snapshot, self: VehicleId, origin: Pos2, i: nat)
    requires env.Valid() && i <= |env.ids|
    ensures forall k :: i <= k < |env.ids| && env.ids[k] != self ==>
      CandidateAt(env, origin, k) in CandidatesFrom(env, self, origin, i)
    decreases |env.ids| - i
  {
    if i < |env.ids| {
      CandidatesComplete(env, self, origin, i + 1);
    }
  }

  /** The candidates from position `i` on are the ids there, less `self` if it is among them. */
  lemma {:induction false} CandidatesCount(env: Snapshot, self: VehicleId, origin: Pos2, i: nat)
    requires env.Valid() && i <= |env.ids|
    ensures |CandidatesFrom(env, self, origin, i)| == |env.ids| - i - (if self in env.ids[i..] then 1 else 0)
    decreases |env.ids| - i
  {
    if i < |env.ids| {
      CandidatesCount(env, self, origin, i + 1);
      assert env.ids[i..] == [env.ids[i]] + env.ids[i + 1..];
      if env.ids[i] == self {
        forall m | i + 1 <= m < |env.ids| ensures env.ids[m] != self {
        }
        assert self !in env.ids[i + 1..];
      }
    }
  }

  /** The other vehicles with their distances to `self`, in `get_ids()` order. */
  function Candidates(env: Snapshot, self: VehicleId): (cs: seq<Candidate>)
    requires env.Valid() && self in env.vehicles
  {
    CandidatesFrom(env, self, env.vehicles[self].position2d, 0)
  }

  /**
   * `c` comes before `d` in the stable sort by distance: it is closer, or
   * equally close and earlier in `get_ids()`.
   */
  predicate Before(c: Candidate, d: Candidate)
  {
    c.dist2 < d.dist2 || (c.dist2 == d.dist2 && c.rank < d.rank)
  }

  predicate StablySorted(s: seq<Candidate>)
  {
    forall a, b :: 0 <= a < b < |s| ==> Before(s[a], s[b])
  }

  /**
   * `s` is in the order `sorted(..., key=norm)` gives when `norms[i]` is the
   * norm of entry `i`: nearer first, ties in `get_ids()` order.
   */
  predicate SortedByNorm(s: seq<Candidate>, norms: seq<real>)
    requires |norms| == |s|
  {
    forall a, b :: 0 <= a < b < |s| ==>
      norms[a] < norms[b] || (norms[a] == norms[b] && s[a].rank < s[b].rank)
  }

  /**
   * A list is in stable order by the norm exactly when it is in stable
   * order by the squared distance, so the model's key yields the list the
   * norm key yields.
   */
  lemma NormKeySortsAlike(s: seq<Candidate>, norms: seq<real>)
    requires |norms| == |s|
    requires forall i :: 0 <= i < |s| ==> norms[i] >= 0.0 && norms[i] * norms[i] == s[i].dist2
    ensures SortedByNorm(s, norms) <==> StablySorted(s)
  {
    forall a, b | 0 <= a < b < |s|
      ensures (norms[a] < norms[b] || (norms[a] == norms[b] && s[a].rank < s[b].rank)) <==> Before(s[a], s[b])
    {
      NormOrderAgrees(norms[a], norms[b], s[a].dist2, s[b].dist2);
    }
  }

  predicate DistinctRanks(s: seq<Candidate>)
  {
    forall a, b :: 0 <= a < b < |s| ==> s[a].rank != s[b].rank
  }

  /** Places `c` in front of the first entry it comes before. */
  function Insert(c: Candidate, s: seq<Candidate>): (r: seq<Candidate>)
    ensures multiset(r) == multiset(s) + multiset{c}
    ensures |r| == |s| + 1
  {
    if s == [] || Before(c, s[0]) then [c] + s
    else
      assert s == [s[0]] + s[1..];
      [s[0]] + Insert(c, s[1..])
  }

  /** Inserting a candidate of a new rank into a stably sorted list keeps it stably sorted. */
  lemma {:induction false} InsertKeepsOrder(c: Candidate, s: seq<Candidate>)
    requires StablySorted(s) && forall d :: d in s ==> d.rank != c.rank
    ensures StablySorted(Insert(c, s))
  {
    if s != [] && !Before(c, s[0]) {
      var rest := Insert(c, s[1..]);
      InsertKeepsOrder(c, s[1..]);
      assert Before(s[0], c);
      forall d | d in rest ensures Before(s[0], d) {
        assert d in multiset(rest);
        if d != c {
          assert d in s[1..];
        }
      }
    }
  }

  /** Python's `sorted(..., key=distance)`: a stable sort, here by insertion. */
  function SortByDistance(s: seq<Candidate>): (r: seq<Candidate>)
    ensures multiset(r) == multiset(s)
    ensures |r| == |s|
    ensures DistinctRanks(s) ==> StablySorted(r)
  {
    if s == [] then []
    else
      var rest := SortByDistance(s[1..]);
      assert s == [s[0]] + s[1..];
      assert DistinctRanks(s) ==> forall d :: d in rest ==> d.rank != s[0].rank by {
        if DistinctRanks(s) {
          forall d | d in rest ensures d.rank != s[0].rank {
            assert d in multiset(s[1..]);
            var m :| 0 <= m < |s[1..]| && s[1..][m] == d;
            assert s[m + 1] == d;
          }
        }
      }
      assert DistinctRanks(s) ==> StablySorted(Insert(s[0], rest)) by {
        if DistinctRanks(s) {
          assert DistinctRanks(s[1..]);
          InsertKeepsOrder(s[0], rest);
        }
      }
      Insert(s[0], rest)
  }

  /**
   * Any two stably sorted arrangements of the same candidates are equal:
   * the stable order is determined by the distances and `get_ids()` order
   * alone, whatever stable sorting algorithm produced it.
   */
  lemma {:induction false} StableOrderIsUnique(r1: seq<Candidate>, r2: seq<Candidate>)
    requires StablySorted(r1) && StablySorted(r2)
    requires multiset(r1) == multiset(r2)
    ensures r1 == r2
    decreases |r1|
  {
    assert |r1| == |multiset(r1)| == |r2|;
    if r1 != [] {
      assert r1[0] in multiset(r2) && r2[0] in multiset(r1);
      FirstComesBefore(r2, r1[0]);
      FirstComesBefore(r1, r2[0]);
      assert r1[0] == r2[0];
      assert r1 == [r1[0]] + r1[1..] && r2 == [r2[0]] + r2[1..];
      assert multiset(r1[1..]) == multiset(r1) - multiset{r1[0]};
      assert multiset(r2[1..]) == multiset(r2) - multiset{r2[0]};
      StableOrderIsUnique(r1[1..], r2[1..]);
    }
  }

  /** In a stably sorted list the first entry comes before every other. */
  lemma FirstComesBefore(r: seq<Candidate>, x: Candidate)
    requires StablySorted(r) && x in r
    ensures x != r[0] ==> Before(r[0], x)
  {
    var j :| 0 <= j < |r| && r[j] == x;
  }

  /** The first `m` entries of a rearrangement of `s` are all entries of `s`. */
  lemma PrefixOfRearrangement(s: seq<Candidate>, r: seq<Candidate>, m: nat)
    requires multiset(r) == multiset(s) && m <= |r|
    ensures forall c :: c in r[..m] ==> c in s
  {
    forall c | c in r[..m] ensures c in s {
      assert c in multiset(r);
    }
  }

  /**
   * `sorted_distances[:k]`: the first `k` candidates in the stable order;
   * never the vehicle itself, only vehicles of `get_ids()`.
   */
  function Nearest(env: Snapshot, self: VehicleId, k: nat): (near: seq<Candidate>)
    requires env.Valid() && self in env.vehicles
    ensures forall c :: c in near ==> c in Candidates(env, self)
    ensures forall c :: c in near ==> c.id != self && c.id in env.ids
  {
    var cs := Candidates(env, self);
    var sorted := SortByDistance(cs);
    PrefixOfRearrangement(cs, sorted, Min(k, |sorted|));
    sorted[..Min(k, |sorted|)]
  }

  lemma CandidatesAreDistinct(env: Snapshot, self: VehicleId)
    requires env.Valid() && self in env.vehicles
    ensures DistinctRanks(Candidates(env, self))
  {
  }

  /** `min(k, n-1)` entries when the vehicle is active, `min(k, n)` when it is not. */
  lemma NearestLength(env: Snapshot, self: VehicleId, k: nat)
    requires env.Valid() && self in env.vehicles
    ensures |Nearest(env, self, k)| == Min(k, if self in env.ids then |env.ids| - 1 else |env.ids|)
  {
    CandidatesCount(env, self, env.vehicles[self].position2d, 0);
    assert env.ids[0..] == env.ids;
  }

  /** Ordered by distance, ties in `get_ids()` order. */
  lemma NearestStablySorted(env: Snapshot, self: VehicleId, k: nat)
    requires env.Valid() && self in env.vehicles
    ensures StablySorted(Nearest(env, self, k))
  {
    CandidatesAreDistinct(env, self);
  }

  /** A prefix of every stable sort of the other vehicles by distance. */
  lemma NearestIsPrefixOfStableSort(env: Snapshot, self: VehicleId, k: nat, r: seq<Candidate>)
    requires env.Valid() && self in env.vehicles
    requires StablySorted(r) && multiset(r) == multiset(Candidates(env, self))
    ensures Nearest(env, self, k) <= r
  {
    CandidatesAreDistinct(env, self);
    StableOrderIsUnique(SortByDistance(Candidates(env, self)), r);
  }

  /**
   * The cut keeps the nearest: every candidate left out is at least as far
   * as every one kept.
   */
  lemma NearestAreNearest(env: Snapshot, self: VehicleId, k: nat)
    requires env.Valid() && self in env.vehicles
    ensures forall c, d :: c in Nearest(env, self, k) && d in Candidates(env, self) && d !in Nearest(env, self, k) ==>
      c.dist2 <= d.dist2
  {
    var cs := Candidates(env, self);
    var sorted := SortByDistance(cs);
    var m := Min(k, |sorted|);
    var near := Nearest(env, self, k);
    CandidatesAreDistinct(env, self);
    assert forall t :: 0 <= t < m ==> near[t] == sorted[t];
    forall c, d | c in near && d in cs && d !in near ensures c.dist2 <= d.dist2 {
      var i :| 0 <= i < m && near[i] == c;
      assert d in multiset(sorted);
      var j :| 0 <= j < |sorted| && sorted[j] == d;
      assert j >= m;
      assert Before(sorted[i], sorted[j]);
    }
  }

  /** The tuple cached for one chosen neighbour, read from the snapshot at rebuild time. */
  function InfoFor(env: Snapshot, id: VehicleId): (e: NeighbourInfo)
    requires env.Valid() && id in env.vehicles
    ensures e.id == id
    ensures e.accel * env.simStep == env.vehicles[id].speed - env.vehicles[id].previousSpeed
  {
    NeighbourInfo(id, env.vehicles[id].headway, env.vehicles[id].speed, GetVehicleAccel(env, id))
  }

  /** The new `consensus_info`: the tuples of the `k` nearest other vehicles, nearest first. */
  function Rebuild(env: Snapshot, self: VehicleId, k: nat): (info: seq<NeighbourInfo>)
    requires env.Valid() && self in env.vehicles
    ensures |info| == |Nearest(env, self, k)|
    ensures forall i :: 0 <= i < |info| ==> info[i] == InfoFor(env, Nearest(env, self, k)[i].id)
  {
    var near := Nearest(env, self, k);
    assert forall i :: 0 <= i < |near| ==> near[i] in near;
    seq(|near|, i requires 0 <= i < |near| => InfoFor(env, near[i].id))
  }

  /** The terms `h - c_head` a loop over the cache adds. */
  function CachedHeadwayDiffs(info: seq<NeighbourInfo>, h: real): (s: seq<real>)
    ensures |s| == |info|
  {
    seq(|info|, i requires 0 <= i < |info| => h - info[i].headway)
  }

  /** The terms `v - c_vel` a loop over the cache adds. */
  function CachedSpeedDiffs(info: seq<NeighbourInfo>, v: real): (s: seq<real>)
    ensures |s| == |info|
  {
    seq(|info|, i requires 0 <= i < |info| => v - info[i].speed)
  }

  /** The terms `a - c_acc` a loop over the cache adds: the cached accelerations as they are, no `abs`. */
  function CachedAccelDiffs(info: seq<NeighbourInfo>, acc: real): (s: seq<real>)
    ensures |s| == |info|
  {
    seq(|info|, i requires 0 <= i < |info| => acc - info[i].accel)
  }

  /**
   * Whether the call made with this counter value rebuilds the cache,
   * counted down by whole intervals; `ResyncsIsModulo` shows this is
   * `counter % interval == 0`.
   */
  predicate Resyncs(counter: nat, interval: nat)
    requires interval > 0
    decreases counter
  {
    if counter < interval then counter == 0 else Resyncs(counter - interval, interval)
  }

  lemma {:induction false} ResyncsIsModulo(counter: nat, interval: nat)
    requires interval > 0
    ensures Resyncs(counter, interval) <==> counter % interval == 0
    decreases counter
  {
    if counter >= interval {
      ResyncsIsModulo(counter - interval, interval);
      ModOfShift(counter, interval);
    }
  }

  /** The cache a call works with: rebuilt when the counter is a multiple of the interval, else the kept one. */
  function CacheForCall(counter: nat, interval: nat, kept: seq<NeighbourInfo>,
                        env: Snapshot, self: VehicleId, k: nat): (info: seq<NeighbourInfo>)
    requires interval > 0 && env.Valid() && self in env.vehicles
    ensures Resyncs(counter, interval) ==> info == Rebuild(env, self, k)
    ensures !Resyncs(counter, interval) ==> info == kept
  {
    if Resyncs(counter, interval) then Rebuild(env, self, k) else kept
  }

  /** The first call (counter 0) always rebuilds, and with interval 1 every call does. */
  lemma FirstAndUnitIntervalCallsRebuild(counter: nat, interval: nat)
    requires interval > 0
    ensures Resyncs(0, interval)
    ensures interval == 1 ==> Resyncs(counter, interval)
  {
    ResyncsIsModulo(counter, interval);
  }

  /**
   * Between two rebuilds the cache is frozen: a call whose counter is not a
   * multiple of the interval keeps the cache, whatever the snapshot says.
   */
  lemma CacheFrozenBetweenRebuilds(counter: nat, interval: nat, kept: seq<NeighbourInfo>,
                                   env1: Snapshot, env2: Snapshot, self: VehicleId, k: nat)
    requires interval > 0 && env1.Valid() && env2.Valid()
    requires self in env1.vehicles && self in env2.vehicles
    requires !Resyncs(counter, interval)
    ensures CacheForCall(counter, interval, kept, env1, self, k)
         == CacheForCall(counter, interval, kept, env2, self, k) == kept
  {
  }
}
