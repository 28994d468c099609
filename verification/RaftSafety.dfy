/** The safety properties of the replicated log, over every run of the cluster.  Unless stated
    otherwise the two states compared may lie anywhere in the run, in either order. */
module RaftSafety {
  import opened KvOps
  import opened RaftTypes
  import opened Quorums
  import opened RaftCore
  import opened RaftCluster
  import opened RaftInvariant
  import opened RaftSteps

  // ---- From steps to runs ----

  lemma {:induction false} RunInv(b: seq<Cluster>, i: nat)
    requires Run(b) && i < |b|
    ensures ClusterInv(b[i]) && b[i].nodes.Keys == b[0].nodes.Keys
  {
    hide ClusterInv;
    if i == 0 {
      InitOk(b[0]);
    } else {
      RunInv(b, i - 1);
      RunStep(b, i - 1);
    }
  }

  lemma RunStep(b: seq<Cluster>, i: nat)
    requires Run(b) && i + 1 < |b| && ClusterInv(b[i])
    ensures Kept(b[i], b[i + 1])
  {
    assert StepAt(b, i);
    var step :| Enabled(b[i], step) && b[i + 1] == Next(b[i], step);
    StepKeeps(b[i], step);
  }

  lemma RunAdjacent(b: seq<Cluster>, i: nat)
    requires Run(b) && i + 1 < |b|
    ensures Extends(b[i].view, b[i + 1].view)
  {
    RunInv(b, i);
    RunStep(b, i);
  }

  lemma RunReflexive(b: seq<Cluster>, i: nat)
    requires Run(b) && i < |b|
    ensures Extends(b[i].view, b[i].view)
  {
    RunInv(b, i);
    ExtendsItself(b[i].view);
  }

  lemma {:induction false} RunExtends(b: seq<Cluster>, i: nat, j: nat)
    requires Run(b) && i <= j < |b|
    ensures Extends(b[i].view, b[j].view)
    decreases j - i
  {
    if i == j {
      RunReflexive(b, i);
    } else {
      var v, w := b[i].view, b[i + 1].view;
      assert Extends(v, w) by { RunAdjacent(b, i); }
      RunExtends(b, i + 1, j);
      ExtendsTransitive(v, w, b[j].view);
    }
  }

  /** The history of the later of two states of a run, which covers both. */
  ghost function Joint(b: seq<Cluster>, i: nat, j: nat): View
    requires i < |b| && j < |b|
  {
    if i < j then b[j].view else b[i].view
  }

  lemma JointCovers(b: seq<Cluster>, i: nat, j: nat)
    requires Run(b) && i < |b| && j < |b|
    ensures var w := Joint(b, i, j); Inv(w) && Extends(b[i].view, w) && Extends(b[j].view, w)
  {
    RunInv(b, i);
    RunInv(b, j);
    RunExtends(b, i, if i < j then j else i);
    RunExtends(b, j, if i < j then j else i);
  }

  lemma LeaderKnown(b: seq<Cluster>, i: nat, n: NodeId, t: nat)
    requires Run(b) && LeaderAt(b, i, n, t)
    ensures Leads(b[i].view, n, t) && t in b[i].view.leaderLog && b[i].nodes[n].log == b[i].view.leaderLog[t]
  {
    RunInv(b, i);
    assert RoleOk(b[i], n);
    LeaderHoldsLeaderLog(b[i], n);
  }

  lemma LogKnown(b: seq<Cluster>, i: nat, n: NodeId)
    requires Run(b) && i < |b| && n in b[i].nodes
    ensures Rooted(b[i].view, b[i].nodes[n].log)
  {
    RunInv(b, i);
    assert Tied(b[i], n) && NodeLogOk(b[i].view, n);
  }

  // ---- The theorems ----

  /** Leader Append-Only: within its term a leader only appends to its log. */
  lemma LeaderAppendOnly(b: seq<Cluster>, i: nat, j: nat, n: NodeId, t: nat)
    requires Run(b) && i <= j && LeaderAt(b, i, n, t) && LeaderAt(b, j, n, t)
    ensures b[i].nodes[n].log <= b[j].nodes[n].log
  {
    LeaderKnown(b, i, n, t);
    LeaderKnown(b, j, n, t);
    RunExtends(b, i, j);
  }

  /** Log Matching: two logs, of any nodes at any times, that hold an entry of the same term at the
      same index are identical up to it.  For any cluster size. */
  lemma LogMatching(b: seq<Cluster>, i: nat, j: nat, n: NodeId, m: NodeId, k: nat)
    requires Run(b) && i < |b| && j < |b| && n in b[i].nodes && m in b[j].nodes
    requires 1 <= k <= |b[i].nodes[n].log| && k <= |b[j].nodes[m].log|
    requires b[i].nodes[n].log[k - 1].term == b[j].nodes[m].log[k - 1].term
    ensures b[i].nodes[n].log[..k] == b[j].nodes[m].log[..k]
  {
    LogKnown(b, i, n);
    LogKnown(b, j, m);
    JointCovers(b, i, j);
    var w := Joint(b, i, j);
    RootedStable(b[i].view, w, b[i].nodes[n].log);
    RootedStable(b[j].view, w, b[j].nodes[m].log);
    SoundLogsMatch(w, b[i].nodes[n].log, b[j].nodes[m].log, k);
  }

  /** What half of the nodes accepted in a term is in the log of every leader of every later term, from
      the moment it is elected, whenever that is. */
  lemma CommittedInLaterLeader(b: seq<Cluster>, i: nat, j: nat, t: nat, k: nat, m: NodeId, t': nat)
    requires Run(b) && i < |b| && Committed(b[i].view, t, k) && t < t' && LeaderAt(b, j, m, t')
    ensures Chosen(b[i].view, t, k) <= b[j].nodes[m].log
  {
    LeaderKnown(b, j, m, t');
    JointCovers(b, i, j);
    var w := Joint(b, i, j);
    CommittedStable(b[i].view, w, t, k);
    CommittedIsLive(w, t, k);
    assert HeldByLeader(w, t, k, t');
    RunInv(b, j);
    assert LeaderLogOk(b[j].view, t');
  }

  lemma CommitIsSafe(b: seq<Cluster>, i: nat, n: NodeId)
    requires Run(b) && i < |b| && n in b[i].nodes
    ensures var s := b[i].nodes[n];
            && s.lastApplied <= s.commit <= |s.log| && Safe(b[i].view, s.log[..s.commit], s.term)
            && s.store == Fold(map[], Ops(s.log[..s.lastApplied]))
  {
    RunInv(b, i);
    assert CommitOk(b[i], n);
  }

  /** Leader Completeness: whatever any node counts as committed, every leader of a later term
      holds, in the same place. */
  lemma LeaderCompleteness(b: seq<Cluster>, i: nat, j: nat, n: NodeId, m: NodeId, t': nat)
    requires Run(b) && i < |b| && n in b[i].nodes
    requires LeaderAt(b, j, m, t') && b[i].nodes[n].term < t'
    ensures b[i].nodes[n].commit <= |b[i].nodes[n].log|
    ensures b[i].nodes[n].log[..b[i].nodes[n].commit] <= b[j].nodes[m].log
  {
    var s := b[i].nodes[n];
    CommitIsSafe(b, i, n);
    if s.log[..s.commit] != [] {
      var t: nat, k: nat :| t <= s.term && Committed(b[i].view, t, k) && s.log[..s.commit] <= Chosen(b[i].view, t, k);
      CommittedInLaterLeader(b, i, j, t, k, m, t');
    }
  }

  lemma SafePrefixesCompare(w: View, x: Log, y: Log, t: nat, t': nat)
    requires Inv(w) && Safe(w, x, t) && Safe(w, y, t')
    ensures x <= y || y <= x
  {
    if x != [] && y != [] {
      var a: nat, k: nat :| a <= t && Committed(w, a, k) && x <= Chosen(w, a, k);
      var a': nat, k': nat :| a' <= t' && Committed(w, a', k') && y <= Chosen(w, a', k');
      CommittedPairCompares(w, a, k, a', k');
    }
  }

  lemma CommittedPairCompares(v: View, t: nat, k: nat, t': nat, k': nat)
    requires Inv(v) && Committed(v, t, k) && Committed(v, t', k')
    ensures Chosen(v, t, k) <= Chosen(v, t', k') || Chosen(v, t', k') <= Chosen(v, t, k)
  {
    if t <= t' {
      CommittedComparable(v, t, k, t', k');
    } else {
      CommittedComparable(v, t', k', t, k);
    }
  }

  /** State Machine Safety: the committed prefixes of any two nodes at any two times are prefixes of
      one another. */
  lemma CommittedPrefixesAgree(b: seq<Cluster>, i: nat, j: nat, n: NodeId, m: NodeId)
    requires Run(b) && i < |b| && j < |b| && n in b[i].nodes && m in b[j].nodes
    ensures var s, r := b[i].nodes[n], b[j].nodes[m];
            && s.commit <= |s.log| && r.commit <= |r.log|
            && (s.commit <= r.commit ==> s.log[..s.commit] <= r.log[..r.commit])
            && (r.commit <= s.commit ==> r.log[..r.commit] <= s.log[..s.commit])
  {
    var s, r := b[i].nodes[n], b[j].nodes[m];
    CommitIsSafe(b, i, n);
    CommitIsSafe(b, j, m);
    JointCovers(b, i, j);
    var w := Joint(b, i, j);
    SafeStable(b[i].view, w, s.log[..s.commit], s.term, s.term);
    SafeStable(b[j].view, w, r.log[..r.commit], r.term, r.term);
    SafePrefixesCompare(w, s.log[..s.commit], r.log[..r.commit], s.term, r.term);
  }

  /** The stores fed by the apply loops never diverge: nodes that applied equally many entries, at
      any two times, hold the same map. */
  lemma AppliedStoresAgree(b: seq<Cluster>, i: nat, j: nat, n: NodeId, m: NodeId)
    requires Run(b) && i < |b| && j < |b| && n in b[i].nodes && m in b[j].nodes
    requires b[i].nodes[n].lastApplied == b[j].nodes[m].lastApplied
    ensures b[i].nodes[n].store == b[j].nodes[m].store
  {
    var s, r := b[i].nodes[n], b[j].nodes[m];
    CommitIsSafe(b, i, n);
    CommitIsSafe(b, j, m);
    CommittedPrefixesAgree(b, i, j, n, m);
    var k := s.lastApplied;
    assert s.log[..k] == s.log[..s.commit][..k];
    assert r.log[..k] == r.log[..r.commit][..k];
    assert s.log[..k] == r.log[..k];
  }

  // ---- The commit index ----

  lemma AppendCommitGrows(c: Cluster, n: NodeId, m: AppendMsg)
    requires ClusterInv(c) && Enabled(c, DeliverAppend(n, m))
    ensures c.nodes[n].commit <= AfterAppendRequest(c, n, m).nodes[n].commit
  {
    hide Inv, Network, AfterAppendRequest;
    DeliveredIsOk(c, n, m);
    if m.req.term > c.nodes[n].term {
      DeliverAfterStepDown(c, n, m);
      AppendAfterStepDown(c, n, m);
      AppendCommitGrowsNow(StepDown(c, n, m.req.term), n, m);
    } else if m.req.term == c.nodes[n].term {
      AppendCommitGrowsNow(c, n, m);
    } else {
      OldRequestIgnored(c, n, m);
    }
  }

  lemma OldRequestIgnored(c: Cluster, n: NodeId, m: AppendMsg)
    requires n in c.nodes && n in c.view.term && m.req.term < c.nodes[n].term
    ensures AfterAppendRequest(c, n, m).nodes[n] == c.nodes[n]
  {
  }

  lemma AppendCommitGrowsNow(c: Cluster, n: NodeId, m: AppendMsg)
    requires Delivering(c, n, m) && m.req.term == c.nodes[n].term
    ensures c.nodes[n].commit <= AfterAppendRequest(c, n, m).nodes[n].commit
  {
    hide Inv, Network, RoleOk, LeaderOk, Safe;
    assert Tied(c, n) && CommitOk(c, n);
    if m.req.entries != [] && Matches(c.nodes[n].log, m.req) {
      AcceptingCan(c, n, m);
      AcceptedLog(c, n, m);
    }
  }

  /** Node `n` is there and its commit index did not go down. */
  ghost predicate CommitGrew(c: Cluster, c': Cluster, n: NodeId)
    requires n in c.nodes
  {
    n in c'.nodes && c.nodes[n].commit <= c'.nodes[n].commit
  }

  lemma VoteStepCommit(c: Cluster, m: NodeId, req: RequestVoteReq, reply: VoteReply, n: NodeId)
    requires m in c.nodes && m in c.view.term && m in c.view.log && n in c.nodes
    ensures CommitGrew(c, AfterVoteRequest(c, m, req), n) && CommitGrew(c, AfterVoteReply(c, m, reply), n)
  {
    hide UpToDate, Bump, Vote, Elect, Filled;
  }

  lemma ReplyStepCommit(c: Cluster, m: NodeId, reply: AppendReply, majority: nat, n: NodeId)
    requires m in c.nodes && n in c.nodes
    ensures CommitGrew(c, AfterHeartbeatReply(c, m, reply, majority), n)
    ensures reply.msg.req in c.open ==> CommitGrew(c, AfterAck(c, m, reply), n)
  {
    hide Bump, TermAt;
  }

  lemma OtherStepCommit(c: Cluster, step: Step, n: NodeId)
    requires Possible(c, step) && n in c.nodes && !(step.DeliverAppend? && step.n == n)
    ensures CommitGrew(c, Next(c, step), n)
  {
    hide Bump, Stand, Append, Accept, BuildAppendEntries, ClosingRequest, ProposalRequest, VoteRequest, IsMajorityIndex,
      OnAppendEntries, AfterVoteRequest, AfterVoteReply, AfterHeartbeatReply, AfterAck, Apply;
    match step
    case DeliverVote(m, req) => VoteStepCommit(c, m, req, VoteReply(m, req, RequestVoteResp(0, false)), n);
    case CountVote(m, reply) => VoteStepCommit(c, m, reply.req, reply, n);
    case HandleHeartbeatReply(m, reply, majority) => ReplyStepCommit(c, m, reply, majority, n);
    case CountAck(m, reply) => ReplyStepCommit(c, m, reply, 0, n);
    case _ =>
  }

  lemma StepCommitGrows(c: Cluster, step: Step, n: NodeId)
    requires ClusterInv(c) && Enabled(c, step) && n in c.nodes
    ensures n in Next(c, step).nodes && c.nodes[n].commit <= Next(c, step).nodes[n].commit
  {
    if step.DeliverAppend? && step.n == n {
      AppendCommitGrows(c, n, step.msg);
    } else {
      OtherStepCommit(c, step, n);
    }
  }

  lemma RunCommitGrows(b: seq<Cluster>, i: nat, n: NodeId)
    requires Run(b) && i + 1 < |b| && n in b[i].nodes
    ensures n in b[i + 1].nodes && b[i].nodes[n].commit <= b[i + 1].nodes[n].commit
  {
    RunInv(b, i);
    assert StepAt(b, i);
    var step :| Enabled(b[i], step) && b[i + 1] == Next(b[i], step);
    StepCommitGrows(b[i], step, n);
  }

  /** The commit index never decreases and never passes the end of the log, and what is committed
      stays in place, although every non-empty request cuts the log back. */
  lemma {:induction false} CommitNeverRetreats(b: seq<Cluster>, i: nat, j: nat, n: NodeId)
    requires Run(b) && i <= j < |b| && n in b[i].nodes
    ensures n in b[j].nodes
    ensures var s, r := b[i].nodes[n], b[j].nodes[n];
            s.commit <= r.commit <= |r.log| && s.commit <= |s.log| && s.log[..s.commit] == r.log[..s.commit]
    decreases j
  {
    if i < j {
      CommitNeverRetreats(b, i, j - 1, n);
      RunCommitGrows(b, j - 1, n);
    }
    CommittedPrefixesAgree(b, i, j, n, n);
  }

  /** The apply loop reads inside the log. */
  lemma ApplyInRange(b: seq<Cluster>, i: nat, n: NodeId)
    requires Run(b) && i < |b| && n in b[i].nodes
    ensures b[i].nodes[n].lastApplied <= b[i].nodes[n].commit <= |b[i].nodes[n].log|
  {
    CommitIsSafe(b, i, n);
  }

  // ---- Acknowledged proposals ----

  /** A proposal that returned true sits at its index in the log of every leader of every later
      term, even when its proposer lost and regained leadership while counting.  Any cluster size. */
  lemma AcknowledgedSurvives(b: seq<Cluster>, i: nat, j: nat, a: Acknowledged, m: NodeId, t': nat)
    requires Run(b) && i < |b| && a in b[i].acknowledged && LeaderAt(b, j, m, t') && a.term < t'
    ensures 1 <= a.index <= |b[j].nodes[m].log| && b[j].nodes[m].log[a.index - 1] == a.entry
  {
    AcknowledgedIsCommitted(b, i, a);
    CommittedInLaterLeader(b, i, j, a.term, a.index, m, t');
  }

  /** ... and no node ever commits, and so applies, anything else at that index. */
  lemma AcknowledgedIsNeverReplaced(b: seq<Cluster>, i: nat, j: nat, a: Acknowledged, m: NodeId)
    requires Run(b) && i < |b| && a in b[i].acknowledged && j < |b| && m in b[j].nodes
    requires b[j].nodes[m].commit >= a.index
    ensures 1 <= a.index <= |b[j].nodes[m].log| && b[j].nodes[m].log[a.index - 1] == a.entry
  {
    AcknowledgedIsCommitted(b, i, a);
    var r := b[j].nodes[m];
    CommitIsSafe(b, j, m);
    JointCovers(b, i, j);
    var w := Joint(b, i, j);
    CommittedStable(b[i].view, w, a.term, a.index);
    SafeStable(b[j].view, w, r.log[..r.commit], r.term, r.term);
    SafeMeetsCommitted(w, r.log[..r.commit], r.term, a.term, a.index);
  }

  lemma AcknowledgedIsCommitted(b: seq<Cluster>, i: nat, a: Acknowledged)
    requires Run(b) && i < |b| && a in b[i].acknowledged
    ensures Committed(b[i].view, a.term, a.index) && Chosen(b[i].view, a.term, a.index)[a.index - 1] == a.entry
  {
    RunInv(b, i);
    assert AcknowledgedOk(b[i].view, a);
  }

  lemma SafeMeetsCommitted(w: View, l: Log, t': nat, t: nat, k: nat)
    requires Inv(w) && Safe(w, l, t') && Committed(w, t, k) && |l| >= k
    ensures l[k - 1] == Chosen(w, t, k)[k - 1]
  {
    var a: nat, i: nat :| a <= t' && Committed(w, a, i) && l <= Chosen(w, a, i);
    CommittedPairCompares(w, t, k, a, i);
  }
}
