/** Sync status of TRON, by what its peers still send. */
module TronSync {
  import StageSync

  const THRESHOLD := 100

  datatype Peer = Peer(needSync: bool, unfetched: int, peek: int, toFetch: int, inProcess: int)

  datatype Status = Status(syncing: bool, current: int, highest: int, progress: real, peers: nat, stallExempt: bool)

  /** How far a peer puts the node behind, by either measure. */
  function Behind(p: Peer, current: int): int {
    if p.unfetched > p.peek + p.toFetch - current then p.unfetched else p.peek + p.toFetch - current
  }

  /** `lag` is the greatest distance a sync peer reports, 0 when the node is ahead of them all. */
  ghost predicate IsLag(ps: seq<Peer>, current: int, lag: int) {
    && lag >= 0
    && (forall p :: p in ps && p.needSync ==> Behind(p, current) <= lag)
    && (lag > 0 ==> exists p :: p in ps && p.needSync && Behind(p, current) == lag)
  }

  ghost predicate Extremes(ps: seq<Peer>, maxRemain: int, highestFromPeers: int) {
    && maxRemain >= 0 && highestFromPeers >= 0
    && (forall p :: p in ps && p.needSync ==> p.unfetched <= maxRemain && p.peek + p.toFetch <= highestFromPeers)
    && (maxRemain > 0 ==> exists p :: p in ps && p.needSync && p.unfetched == maxRemain)
    && (highestFromPeers > 0 ==> exists p :: p in ps && p.needSync && p.peek + p.toFetch == highestFromPeers)
  }

  ghost predicate Active(ps: seq<Peer>) { exists p :: p in ps && p.needSync && (p.toFetch > 0 || p.inProcess > 0) }

  method Aggregate(ps: seq<Peer>) returns (maxRemain: int, highestFromPeers: int, active: bool)
    ensures Extremes(ps, maxRemain, highestFromPeers) && (active <==> Active(ps))
  {
    maxRemain, highestFromPeers, active := 0, 0, false;
    for i := 0 to |ps|
      invariant Extremes(ps[..i], maxRemain, highestFromPeers) && (active <==> Active(ps[..i]))
    {
      var p := ps[i];
      assert ps[..i + 1] == ps[..i] + [p];
      assert forall x :: x in ps[..i + 1] <==> x in ps[..i] || x == p;
      if !p.needSync {
        continue;
      }
      if p.unfetched > maxRemain {
        maxRemain := p.unfetched;
      }
      if p.peek + p.toFetch > highestFromPeers {
        highestFromPeers := p.peek + p.toFetch;
      }
      if p.toFetch > 0 || p.inProcess > 0 {
        active := true;
      }
    }
    assert ps[..|ps|] == ps;
  }

  lemma LagOf(ps: seq<Peer>, current: int, maxRemain: int, highestFromPeers: int)
    requires current >= 0 && Extremes(ps, maxRemain, highestFromPeers)
    ensures IsLag(ps, current, if maxRemain > highestFromPeers - current then maxRemain else highestFromPeers - current)
  {
  }

  /** None: the block text does not open with a number. */
  method HealthCheck(current: nat, ps: seq<Peer>) returns (s: Status, ghost lag: int)
    ensures IsLag(ps, current, lag) && s.current == current && s.highest == current + lag
    ensures s.syncing <==> exists p :: p in ps && p.needSync && (p.unfetched > THRESHOLD || p.peek + p.toFetch - current > THRESHOLD)
    ensures s.stallExempt <==> s.syncing && exists p :: p in ps && p.needSync && (p.toFetch > 0 || p.inProcess > 0)
    ensures s.peers == |ps|
    ensures s.progress == if s.syncing then StageSync.Progress(current, s.highest) else 100.0
  {
    var maxRemain, highestFromPeers, active := Aggregate(ps);
    LagOf(ps, current, maxRemain, highestFromPeers);
    var highest := if current + maxRemain > highestFromPeers then current + maxRemain else highestFromPeers;
    lag := highest - current;
    var syncing := highest - current > THRESHOLD;
    ThresholdIff(ps, current, lag);
    var progress := 100.0;
    if highest > 0 && syncing {
      progress := current as real / highest as real * 100.0;
      if current == 0 { ZeroShare(highest); }
    }
    s := Status(syncing, current, highest, progress, |ps|, active && syncing);
  }

  lemma ZeroShare(h: int)
    requires h > 0
    ensures 0 as real / h as real * 100.0 == 0.0
  {
  }

  /** Synced means every sync peer is within the threshold, by both measures. */
  lemma ThresholdIff(ps: seq<Peer>, current: int, lag: int)
    requires IsLag(ps, current, lag)
    ensures lag > THRESHOLD
       <==> exists p :: p in ps && p.needSync && (p.unfetched > THRESHOLD || p.peek + p.toFetch - current > THRESHOLD)
  {
    if lag > THRESHOLD {
      var p :| p in ps && p.needSync && Behind(p, current) == lag;
    }
    if p :| p in ps && p.needSync && (p.unfetched > THRESHOLD || p.peek + p.toFetch - current > THRESHOLD) {
      assert Behind(p, current) <= lag;
    }
  }

  /** The lag is one number, whatever the order of the peers. */
  lemma LagUnique(ps: seq<Peer>, qs: seq<Peer>, current: int, lag: int, lag': int)
    requires forall p :: p in ps <==> p in qs
    requires IsLag(ps, current, lag) && IsLag(qs, current, lag')
    ensures lag == lag'
  {
  }
}
