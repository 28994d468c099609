/** Log repair terminates: a follower that a stable leader can reach is brought up to date by a
    bounded number of heartbeat exchanges, with nextIndex as the measure, and with the log comes the
    leader's commit index. */
module RaftCatchUp {
  import opened KvOps
  import opened RaftTypes
  import opened RaftCore
  import opened RaftCluster
  import opened RaftInvariant
  import opened RaftSafety

  datatype Pair = Pair(leader: NodeState, follower: NodeState)

  /** One iteration of the heartbeat loop for one reachable peer; `k` is the majority index at the
      time, which may move the commit index but not the logs. */
  function Exchange(p: Pair, k: nat): Pair {
    var req := BuildAppendEntries(p.leader, p.follower.id);
    var (f, resp) := OnAppendEntries(p.follower, req);
    var l := p.leader;
    Pair(if resp.term > l.term then BecomeFollower(l, resp.term, None)
         else if resp.success then AdvanceCommit(RecordMatch(l, f.id, req), k)
         else Backtrack(l, f.id), f)
  }

  function Exchanges(p: Pair, ks: seq<nat>): Pair
    decreases |ks|
  {
    if ks == [] then p else Exchanges(Exchange(p, ks[0]), ks[1..])
  }

  /** Logs that agree on the term at an index agree up to it. */
  ghost predicate Matching(a: Log, b: Log) {
    forall k :: 1 <= k <= |a| && k <= |b| && a[k - 1].term == b[k - 1].term ==> a[..k] == b[..k]
  }

  ghost predicate Ready(p: Pair) {
    && p.follower.id in p.leader.nextIndex && 1 <= p.leader.nextIndex[p.follower.id] <= |p.leader.log| + 1
    && p.follower.term <= p.leader.term
    && Matching(p.leader.log, p.follower.log)
  }

  ghost predicate CaughtUp(p: Pair) {
    p.leader.log <= p.follower.log && NextFor(p.leader, p.follower.id) == |p.leader.log| + 1
  }

  lemma MatchesAgree(p: Pair)
    requires Ready(p) && Matches(p.follower.log, BuildAppendEntries(p.leader, p.follower.id))
    ensures var prev := NextFor(p.leader, p.follower.id) - 1;
            prev <= |p.follower.log| && p.leader.log[..prev] == p.follower.log[..prev]
  {
    var prev := NextFor(p.leader, p.follower.id) - 1;
    if prev > 0 {
      assert p.leader.log[prev - 1].term == p.follower.log[prev - 1].term;
    }
  }

  /** An accepted request makes the follower's log the leader's, or leaves it with the leader's as a prefix. */
  lemma AcceptedLogs(p: Pair)
    requires Ready(p) && Matches(p.follower.log, BuildAppendEntries(p.leader, p.follower.id))
    ensures var req := BuildAppendEntries(p.leader, p.follower.id);
            var log := Spliced(p.follower.log, req);
            && OnAppendEntries(p.follower, req).1.success && OnAppendEntries(p.follower, req).0.log == log
            && p.leader.log <= log && Matching(p.leader.log, log)
            && (req.entries == [] ==> NextFor(p.leader, p.follower.id) == |p.leader.log| + 1)
            && (req.entries != [] ==> req.prevLogIndex + |req.entries| == |p.leader.log|)
  {
    MatchesAgree(p);
    var req := BuildAppendEntries(p.leader, p.follower.id);
    var prev := req.prevLogIndex;
    assert p.leader.log == p.leader.log[..prev] + p.leader.log[prev..];
    if req.entries != [] {
      assert p.follower.log[..prev] + req.entries == p.leader.log;
    }
  }

  lemma ExchangeAccepted(p: Pair, k: nat)
    requires Ready(p) && Matches(p.follower.log, BuildAppendEntries(p.leader, p.follower.id))
    ensures var q := Exchange(p, k); Ready(q) && CaughtUp(q)
  {
    hide Matching, Matches, BuildAppendEntries;
    AcceptedLogs(p);
    BuiltTerm(p.leader, p.follower.id);
  }

  /** An accepted request brings the leader's commit index, unless the follower is ahead of it. */
  lemma ExchangeCommits(p: Pair, k: nat)
    requires Ready(p) && Matches(p.follower.log, BuildAppendEntries(p.leader, p.follower.id))
    requires p.leader.commit <= |p.leader.log|
    ensures Exchange(p, k).follower.commit ==
            if p.leader.commit > p.follower.commit then p.leader.commit else p.follower.commit
  {
    hide Matching;
    AcceptedLogs(p);
  }

  lemma AcceptedCommits(p: Pair, k: nat, x: nat)
    requires Ready(p) && Matches(p.follower.log, BuildAppendEntries(p.leader, p.follower.id))
    requires x <= p.leader.commit && x <= |p.leader.log|
    ensures x <= Exchange(p, k).follower.commit
  {
    hide Matching;
    AcceptedLogs(p);
  }

  /** An exchange moves no commit index back; `x` is any index within the leader's log. */
  lemma CommitsStay(p: Pair, k: nat, x: nat)
    requires Ready(p) && x <= |p.leader.log|
    ensures var q := Exchange(p, k);
            p.leader.commit <= q.leader.commit && (x <= p.follower.commit ==> x <= q.follower.commit)
  {
    hide Matching;
    if Matches(p.follower.log, BuildAppendEntries(p.leader, p.follower.id)) {
      AcceptedLogs(p);
    }
  }

  lemma BuiltTerm(s: NodeState, peer: NodeId)
    ensures BuildAppendEntries(s, peer).term == s.term
  {
  }

  lemma ExchangeRejected(p: Pair, k: nat)
    requires Ready(p) && !Matches(p.follower.log, BuildAppendEntries(p.leader, p.follower.id))
    ensures var q := Exchange(p, k);
            Ready(q) && NextFor(q.leader, q.follower.id) == NextFor(p.leader, p.follower.id) - 1
  {
    hide Matching;
  }

  /** One exchange either brings the follower up to date or lowers nextIndex, which stays in range. */
  lemma ExchangeProgress(p: Pair, k: nat)
    requires Ready(p)
    ensures var q := Exchange(p, k);
            && Ready(q) && q.leader.log == p.leader.log && q.leader.term == p.leader.term
              && q.follower.id == p.follower.id
            && (CaughtUp(q) || NextFor(q.leader, q.follower.id) == NextFor(p.leader, p.follower.id) - 1)
  {
    hide Matching, Matches, CaughtUp;
    BuiltTerm(p.leader, p.follower.id);
    if Matches(p.follower.log, BuildAppendEntries(p.leader, p.follower.id)) {
      ExchangeAccepted(p, k);
    } else {
      ExchangeRejected(p, k);
    }
  }

  lemma CaughtUpStays(p: Pair, k: nat)
    requires Ready(p) && CaughtUp(p)
    ensures CaughtUp(Exchange(p, k))
  {
    var req := BuildAppendEntries(p.leader, p.follower.id);
    var prev := |p.leader.log|;
    assert prev > 0 ==> p.leader.log[prev - 1] == p.follower.log[prev - 1];
    assert Matches(p.follower.log, req);
    ExchangeProgress(p, k);
  }

  lemma {:induction false} StaysCaughtUp(p: Pair, ks: seq<nat>, x: nat)
    requires Ready(p) && CaughtUp(p) && x <= |p.leader.log| && x <= p.follower.commit
    ensures var q := Exchanges(p, ks); CaughtUp(q) && q.leader.log == p.leader.log && x <= q.follower.commit
    decreases |ks|
  {
    hide Exchange, Ready, CaughtUp;
    if ks != [] {
      ExchangeProgress(p, ks[0]);
      CaughtUpStays(p, ks[0]);
      CommitsStay(p, ks[0], x);
      StaysCaughtUp(Exchange(p, ks[0]), ks[1..], x);
    }
  }

  /** As many exchanges as nextIndex, hence |log| + 1 of them at most, make the leader's log a prefix
      of the follower's, and what the leader had committed the follower has committed too. */
  lemma {:induction false} CatchUpTerminates(p: Pair, ks: seq<nat>, x: nat)
    requires Ready(p) && |ks| >= NextFor(p.leader, p.follower.id) && x <= p.leader.commit && x <= |p.leader.log|
    ensures var q := Exchanges(p, ks); CaughtUp(q) && q.leader.log == p.leader.log && x <= q.follower.commit
    decreases |ks|
  {
    hide Exchange, CaughtUp, Matches, Matching, BuildAppendEntries;
    var q := Exchange(p, ks[0]);
    ExchangeProgress(p, ks[0]);
    CommitsStay(p, ks[0], x);
    if Matches(p.follower.log, BuildAppendEntries(p.leader, p.follower.id)) {
      ExchangeAccepted(p, ks[0]);
      AcceptedCommits(p, ks[0], x);
      StaysCaughtUp(q, ks[1..], x);
    } else {
      ExchangeRejected(p, ks[0]);
      CatchUpTerminates(q, ks[1..], x);
    }
  }

  /** In any reachable state, with any leader and any other node in no later term. */
  lemma CatchUpInRun(b: seq<Cluster>, i: nat, n: NodeId, m: NodeId, ks: seq<nat>)
    requires Run(b) && i < |b| && n in b[i].nodes && m in b[i].nodes && n != m
    requires b[i].nodes[n].role == Leader && b[i].nodes[m].term <= b[i].nodes[n].term
    requires |ks| >= |b[i].nodes[n].log| + 1
    ensures var f := Exchanges(Pair(b[i].nodes[n], b[i].nodes[m]), ks).follower;
            b[i].nodes[n].log <= f.log && b[i].nodes[n].commit <= f.commit
  {
    hide Run, Exchanges, Matching;
    var p := Pair(b[i].nodes[n], b[i].nodes[m]);
    ReadyInRun(b, i, n, m);
    ApplyInRange(b, i, n);
    CatchUpTerminates(p, ks, p.leader.commit);
  }

  lemma ReadyInRun(b: seq<Cluster>, i: nat, n: NodeId, m: NodeId)
    requires Run(b) && i < |b| && n in b[i].nodes && m in b[i].nodes && n != m
    requires b[i].nodes[n].role == Leader && b[i].nodes[m].term <= b[i].nodes[n].term
    ensures Ready(Pair(b[i].nodes[n], b[i].nodes[m]))
  {
    hide Run, ClusterInv;
    RunInv(b, i);
    ReadyNow(b[i], n, m);
  }

  lemma ReadyNow(c: Cluster, n: NodeId, m: NodeId)
    requires ClusterInv(c) && n in c.nodes && m in c.nodes && n != m
    requires c.nodes[n].role == Leader && c.nodes[m].term <= c.nodes[n].term
    ensures Ready(Pair(c.nodes[n], c.nodes[m]))
  {
    hide ClusterInv, Rooted;
    var l, f := c.nodes[n], c.nodes[m];
    NextNow(c, n, m);
    forall k | 1 <= k <= |l.log| && k <= |f.log| && l.log[k - 1].term == f.log[k - 1].term
      ensures l.log[..k] == f.log[..k]
    {
      SoundLogsMatch(c.view, l.log, f.log, k);
    }
  }

  lemma NextNow(c: Cluster, n: NodeId, m: NodeId)
    requires ClusterInv(c) && n in c.nodes && m in c.nodes && n != m && c.nodes[n].role == Leader
    ensures var l := c.nodes[n];
            && m in l.nextIndex && 1 <= l.nextIndex[m] <= |l.log| + 1 && c.nodes[m].id == m
            && Rooted(c.view, l.log) && Rooted(c.view, c.nodes[m].log)
  {
    hide Network, Rooted, Completeness;
    assert Tied(c, n) && Tied(c, m) && RoleOk(c, n) && LeaderOk(c, n);
    assert NodeLogOk(c.view, n) && NodeLogOk(c.view, m);
  }
}
