/** What every step of the cluster keeps: the invariant of RaftCore for the history, and, clause
    by clause, how nodes, requests and replies relate to it. */
module RaftInvariant {
  import opened KvOps
  import opened RaftTypes
  import opened Quorums
  import opened RaftCore
  import opened RaftCoreSteps
  import opened RaftCluster

  // ---- Clauses about nodes ----

  /** The history knows each node's term and log. */
  ghost predicate Tied(c: Cluster, n: NodeId) {
    n in c.nodes ==>
      && n in c.view.term && n in c.view.log
      && c.view.term[n] == c.nodes[n].term && c.view.log[n] == c.nodes[n].log
      && c.nodes[n].id == n && PeersOf(c.nodes.Keys, n, c.nodes[n].peers)
      && c.nodes[n].matchIndex.Keys <= c.nodes.Keys - {n} && c.nodes[n].nextIndex.Keys <= c.nodes.Keys - {n}
  }

  ghost predicate RoleOk(c: Cluster, n: NodeId) {
    n in c.nodes ==>
      var s := c.nodes[n];
      && (s.votedFor.None? ==> At(s.term, n) !in c.view.vote)
      && (s.votedFor.Some? ==> At(s.term, n) in c.view.vote && c.view.vote[At(s.term, n)] == s.votedFor.value)
      && (s.role == Leader ==> Leads(c.view, n, s.term))
      && (s.role == Candidate ==>
            && !Leads(c.view, n, s.term)
            && At(s.term, n) in c.view.standing && c.view.standing[At(s.term, n)] == s.log
            && n in c.ballots && c.ballots[n] <= Voters(c.view, s.term, n))
  }

  /** While a leader is in its term, what it recorded about a peer, the peer accepted. */
  ghost predicate LeaderOk(c: Cluster, n: NodeId) {
    n in c.nodes && Leads(c.view, n, c.nodes[n].term) ==>
      var s := c.nodes[n];
      && s.matchIndex.Keys == s.nextIndex.Keys == c.nodes.Keys - {n}
      && (forall p :: p in s.matchIndex ==> s.matchIndex[p] <= Acked(c.view, p, s.term))
      && (forall p :: p in s.nextIndex ==> 1 <= s.nextIndex[p] <= |s.log| + 1)
  }

  /** `l` is a prefix of something committed in term `t` or earlier. */
  ghost predicate Safe(v: View, l: Log, t: nat) {
    l == [] || exists t0: nat, k: nat :: t0 <= t && Committed(v, t0, k) && l <= Chosen(v, t0, k)
  }

  ghost predicate CommitOk(c: Cluster, n: NodeId) {
    n in c.nodes ==>
      var s := c.nodes[n];
      && s.lastApplied <= s.commit <= |s.log|
      && Safe(c.view, s.log[..s.commit], s.term)
      && s.store == Fold(map[], Ops(s.log[..s.lastApplied]))
  }

  // ---- Clauses about the network; they speak of the history only, so they stay true ----

  ghost predicate VoteReqOk(v: View, req: RequestVoteReq) {
    var at := At(req.term, req.candidateId);
    at in v.standing && |v.standing[at]| == req.lastLogIndex && LastTerm(v.standing[at]) == req.lastLogTerm
  }

  ghost predicate VoteReplyOk(v: View, reply: VoteReply) {
    && reply.peer in v.members
    && (reply.resp.voteGranted ==>
          var at := At(reply.req.term, reply.peer); at in v.vote && v.vote[at] == reply.req.candidateId)
  }

  /** The log prefix a request refers to by its previous index and term. */
  ghost predicate Anchored(v: View, req: AppendEntriesReq) {
    req.prevLogIndex > 0 ==> Slot(v, req.prevLogTerm, req.prevLogIndex)
  }

  ghost predicate CarriesOk(v: View, req: AppendEntriesReq) {
    req.entries != [] ==>
      && req.term in v.leaderLog && Stood(v, req.term) <= req.prevLogIndex + |req.entries| <= |v.leaderLog[req.term]|
      && req.entries == v.leaderLog[req.term][req.prevLogIndex..req.prevLogIndex + |req.entries|]
      && req.prevLogTerm == TermAt(v.leaderLog[req.term], req.prevLogIndex)
  }

  /** What the receiver of the request ends up with, up to the leader's commit index, is safe. */
  ghost predicate CommitPartOk(v: View, req: AppendEntriesReq)
    requires Anchored(v, req) && CarriesOk(v, req)
  {
    && req.leaderCommit <= req.prevLogIndex + |req.entries|
    && (req.entries != [] ==> Safe(v, v.leaderLog[req.term][..req.leaderCommit], req.term))
    && (req.entries == [] && req.leaderCommit > 0 ==>
          Safe(v, Chosen(v, req.prevLogTerm, req.prevLogIndex)[..req.leaderCommit], req.term))
  }

  ghost predicate MsgOk(v: View, m: AppendMsg) {
    && Anchored(v, m.req) && CarriesOk(v, m.req)
    && (if m.kind == Closing then m.req.entries == [] else Leads(v, m.req.leaderId, m.req.term))
    && CommitPartOk(v, m.req)
  }

  ghost predicate ReplyOk(v: View, reply: AppendReply) {
    && MsgOk(v, reply.msg)
    && reply.peer in v.members && reply.peer != reply.msg.req.leaderId
    && (reply.resp.success && reply.msg.req.entries != [] ==>
          Acked(v, reply.peer, reply.msg.req.term) >= reply.msg.req.prevLogIndex + |reply.msg.req.entries|)
  }

  ghost predicate PushedOk(v: View, p: Pushed) {
    Leads(v, p.node, p.entry.term)
  }

  /** A proposal's request carries the entry its leader put there, and its acks accepted it. */
  ghost predicate OpenOk(v: View, r: AppendEntriesReq, acks: set<NodeId>) {
    && Leads(v, r.leaderId, r.term) && Slot(v, r.term, r.prevLogIndex + 1)
    && r.entries == [v.leaderLog[r.term][r.prevLogIndex]]
    && acks <= AckedBy(v, r.term, r.prevLogIndex + 1)
  }

  ghost predicate AcknowledgedOk(v: View, a: Acknowledged) {
    Committed(v, a.term, a.index) && v.leaderLog[a.term][a.index - 1] == a.entry
  }

  ghost predicate Nodes(c: Cluster) {
    && c.view.members == c.nodes.Keys
    && (forall n :: Tied(c, n))
    && (forall n :: RoleOk(c, n))
    && (forall n :: LeaderOk(c, n))
    && (forall n :: CommitOk(c, n))
  }

  ghost predicate Network(c: Cluster) {
    && (forall r :: r in c.voteReqs ==> VoteReqOk(c.view, r))
    && (forall r :: r in c.voteReplies ==> VoteReplyOk(c.view, r))
    && (forall m :: m in c.msgs ==> MsgOk(c.view, m))
    && (forall r :: r in c.replies ==> ReplyOk(c.view, r))
    && (forall p :: p in c.pushed ==> PushedOk(c.view, p))
    && (forall r :: r in c.open ==> OpenOk(c.view, r, c.open[r]))
    && (forall a :: a in c.acknowledged ==> AcknowledgedOk(c.view, a))
  }

  ghost predicate ClusterInv(c: Cluster) {
    Inv(c.view) && Nodes(c) && Network(c)
  }

  // ---- Stability under extension of the history ----

  lemma SafeStable(v: View, w: View, l: Log, t: nat, t': nat)
    requires Extends(v, w) && Safe(v, l, t) && t <= t'
    ensures Safe(w, l, t')
  {
    if l != [] {
      var t0: nat, k: nat :| t0 <= t && Committed(v, t0, k) && l <= Chosen(v, t0, k);
      CommittedStable(v, w, t0, k);
    }
  }

  lemma SlotStable(v: View, w: View, t: nat, k: nat)
    requires Extends(v, w) && Slot(v, t, k)
    ensures Slot(w, t, k) && Chosen(w, t, k) == Chosen(v, t, k)
  {
  }

  lemma CarriesStable(v: View, w: View, req: AppendEntriesReq)
    requires Extends(v, w) && CarriesOk(v, req)
    ensures CarriesOk(w, req)
  {
    if req.entries != [] {
      var a, b := v.leaderLog[req.term], w.leaderLog[req.term];
      var i, j := req.prevLogIndex, req.prevLogIndex + |req.entries|;
      assert a[i..j] == b[i..j];
    }
  }

  lemma LeadsStable(v: View, w: View, n: NodeId, t: nat)
    requires Extends(v, w)
    ensures Leads(v, n, t) ==> Leads(w, n, t)
  {
    hide Rooted;
    assert t in v.leader ==> t in v.leaderLog;
  }

  lemma PrefixesStable(v: View, w: View, req: AppendEntriesReq)
    requires Extends(v, w)
    ensures req.term in v.leaderLog && req.leaderCommit <= |v.leaderLog[req.term]| ==>
              && req.term in w.leaderLog && req.leaderCommit <= |w.leaderLog[req.term]|
              && w.leaderLog[req.term][..req.leaderCommit] == v.leaderLog[req.term][..req.leaderCommit]
  {
  }

  lemma MsgStable(v: View, w: View, m: AppendMsg)
    requires Extends(v, w) && MsgOk(v, m)
    ensures MsgOk(w, m)
  {
    hide Safe, Extends;
    var req := m.req;
    LeadsStable(v, w, req.leaderId, req.term);
    PrefixesStable(v, w, req);
    if req.prevLogIndex > 0 {
      SlotStable(v, w, req.prevLogTerm, req.prevLogIndex);
    }
    CarriesStable(v, w, req);
    if req.entries != [] {
      SafeStable(v, w, v.leaderLog[req.term][..req.leaderCommit], req.term, req.term);
    } else if req.leaderCommit > 0 {
      SafeStable(v, w, Chosen(v, req.prevLogTerm, req.prevLogIndex)[..req.leaderCommit], req.term, req.term);
    }
  }

  lemma ReplyStable(v: View, w: View, reply: AppendReply)
    requires Extends(v, w) && ReplyOk(v, reply)
    ensures ReplyOk(w, reply)
  {
    MsgStable(v, w, reply.msg);
    assert Acked(v, reply.peer, reply.msg.req.term) <= Acked(w, reply.peer, reply.msg.req.term);
  }

  lemma OpenStable(v: View, w: View, r: AppendEntriesReq, acks: set<NodeId>)
    requires Extends(v, w) && OpenOk(v, r, acks)
    ensures OpenOk(w, r, acks)
  {
    SlotStable(v, w, r.term, r.prevLogIndex + 1);
    AckedByGrows(v, w, r.term, r.prevLogIndex + 1);
  }

  ghost predicate OpenAsBefore(c: Cluster, c': Cluster, r: AppendEntriesReq)
    requires r in c'.open
  {
    r in c.open && c.open[r] == c'.open[r]
  }

  /** The whole network part, for a step that adds only requests, replies and acknowledgements
      that are already all right. */
  lemma NetworkKept(c: Cluster, c': Cluster)
    requires Extends(c.view, c'.view) && Network(c)
    requires forall r :: r in c'.voteReqs && r !in c.voteReqs ==> VoteReqOk(c'.view, r)
    requires forall r :: r in c'.voteReplies && r !in c.voteReplies ==> VoteReplyOk(c'.view, r)
    requires forall m :: m in c'.msgs && m !in c.msgs ==> MsgOk(c'.view, m)
    requires forall r :: r in c'.replies && r !in c.replies ==> ReplyOk(c'.view, r)
    requires forall p :: p in c'.pushed && p !in c.pushed ==> PushedOk(c'.view, p)
    requires forall r :: r in c'.open ==> OpenAsBefore(c, c', r) || OpenOk(c'.view, r, c'.open[r])
    requires forall a :: a in c'.acknowledged && a !in c.acknowledged ==> AcknowledgedOk(c'.view, a)
    ensures Network(c')
  {
    var v, w := c.view, c'.view;
    forall r | r in c'.voteReqs ensures VoteReqOk(w, r) { }
    forall r | r in c'.voteReplies ensures VoteReplyOk(w, r) { }
    forall m | m in c'.msgs ensures MsgOk(w, m) {
      if m in c.msgs { MsgStable(v, w, m); }
    }
    forall r | r in c'.replies ensures ReplyOk(w, r) {
      if r in c.replies { ReplyStable(v, w, r); }
    }
    forall p | p in c'.pushed ensures PushedOk(w, p) { }
    forall r | r in c'.open ensures OpenOk(w, r, c'.open[r]) {
      if OpenAsBefore(c, c', r) { OpenStable(v, w, r, c.open[r]); }
    }
    forall a | a in c'.acknowledged ensures AcknowledgedOk(w, a) {
      if a in c.acknowledged { CommittedStable(v, w, a.term, a.index); }
    }
  }

  // ---- Nodes that do not take part in a step ----

  /** The step concerns node `n` only: nothing of any other node, its votes, ballots or leader logs
      changes. */
  ghost predicate Local(c: Cluster, c': Cluster, n: NodeId) {
    && Extends(c.view, c'.view) && c'.nodes.Keys == c.nodes.Keys && c'.view.members == c.view.members
    && (forall m :: m != n && m in c.nodes ==> c'.nodes[m] == c.nodes[m])
    && (forall m :: m != n && m in c.view.term ==> c'.view.term[m] == c.view.term[m])
    && (forall m :: m != n && m in c.view.log ==> c'.view.log[m] == c.view.log[m])
    && (forall p :: p in c'.view.vote && p !in c.view.vote ==> p.node == n)
    && (forall t :: t in c'.view.leader && t !in c.view.leader ==> c'.view.leader[t] == n)
    && (forall t :: t in c.view.leader && c.view.leader[t] != n ==> c'.view.leaderLog[t] == c.view.leaderLog[t])
    && (forall m :: m != n && m in c.ballots ==> m in c'.ballots && c'.ballots[m] == c.ballots[m])
  }

  lemma OtherTied(c: Cluster, c': Cluster, n: NodeId, m: NodeId)
    requires Local(c, c', n) && m != n && Tied(c, m)
    ensures Tied(c', m)
  {
  }

  lemma OtherRole(c: Cluster, c': Cluster, n: NodeId, m: NodeId)
    requires Local(c, c', n) && m != n && RoleOk(c, m)
    ensures RoleOk(c', m)
  {
    if m in c.nodes {
      assert Voters(c.view, c.nodes[m].term, m) <= Voters(c'.view, c.nodes[m].term, m);
    }
  }

  lemma OtherLeader(c: Cluster, c': Cluster, n: NodeId, m: NodeId)
    requires Local(c, c', n) && m != n && LeaderOk(c, m)
    ensures LeaderOk(c', m)
  {
    if m in c.nodes && Leads(c'.view, m, c.nodes[m].term) {
      var s := c.nodes[m];
      assert Leads(c.view, m, s.term);
      forall p | p in s.matchIndex ensures s.matchIndex[p] <= Acked(c'.view, p, s.term) {
        assert Acked(c.view, p, s.term) <= Acked(c'.view, p, s.term);
      }
    }
  }

  lemma OtherCommit(c: Cluster, c': Cluster, n: NodeId, m: NodeId)
    requires Local(c, c', n) && m != n && CommitOk(c, m)
    ensures CommitOk(c', m)
  {
    if m in c.nodes {
      var s := c.nodes[m];
      SafeStable(c.view, c'.view, s.log[..s.commit], s.term, s.term);
    }
  }

  lemma AckedByGrows(v: View, w: View, t: nat, k: nat)
    requires Extends(v, w)
    ensures AckedBy(v, t, k) <= AckedBy(w, t, k)
  {
    forall n | n in AckedBy(v, t, k) ensures n in AckedBy(w, t, k) {
      assert Acked(v, n, t) <= Acked(w, n, t);
    }
  }

  /** A step that concerns `n` keeps the node clauses if it keeps them for `n`. */
  lemma NodesKept(c: Cluster, c': Cluster, n: NodeId)
    requires Local(c, c', n) && Nodes(c)
    requires Tied(c', n) && RoleOk(c', n) && LeaderOk(c', n) && CommitOk(c', n)
    ensures Nodes(c')
  {
    forall m ensures Tied(c', m) { assert Tied(c, m); if m != n { OtherTied(c, c', n, m); } }
    forall m ensures RoleOk(c', m) { assert RoleOk(c, m); if m != n { OtherRole(c, c', n, m); } }
    forall m ensures LeaderOk(c', m) { assert LeaderOk(c, m); if m != n { OtherLeader(c, c', n, m); } }
    forall m ensures CommitOk(c', m) { assert CommitOk(c, m); if m != n { OtherCommit(c, c', n, m); } }
  }
}
