/** Every step of the cluster keeps the cluster invariant and only extends the history. */
module RaftSteps {
  import opened KvOps
  import opened RaftTypes
  import opened Quorums
  import opened RaftCore
  import opened RaftCoreSteps
  import opened RaftCluster
  import opened RaftInvariant

  ghost predicate Kept(c: Cluster, c': Cluster) {
    ClusterInv(c') && Extends(c.view, c'.view) && c'.nodes.Keys == c.nodes.Keys
  }

  lemma KeptTwice(c: Cluster, d: Cluster, e: Cluster)
    requires Kept(c, d) && Kept(d, e)
    ensures Kept(c, e)
  {
    ExtendsTransitive(c.view, d.view, e.view);
  }

  lemma ExtendsItself(v: View)
    requires Shape(v)
    ensures Extends(v, v)
  {
  }

  // ---- Facts about one node ----

  /** A log prefix is identified by its length and last term. */
  lemma PrefixIsSlot(v: View, log: Log, k: nat)
    requires Rooted(v, log) && 1 <= k <= |log|
    ensures Slot(v, log[k - 1].term, k) && Chosen(v, log[k - 1].term, k) == log[..k]
  {
    var t := log[k - 1].term;
    assert log[..(k - 1) + 1] == v.leaderLog[t][..(k - 1) + 1];
    assert v.leaderLog[t][k - 1] == v.leaderLog[t][..k][k - 1];
  }

  /** A log that passes the consistency check agrees with any sound log the request was built from. */
  lemma CheckedPrefix(v: View, mine: Log, theirs: Log, k: nat)
    requires Rooted(v, mine) && Rooted(v, theirs) && k <= |mine| && k <= |theirs|
             && TermAt(mine, k) == TermAt(theirs, k)
    ensures mine[..k] == theirs[..k]
  {
    if k > 0 {
      SoundLogsMatch(v, mine, theirs, k);
    }
  }

  lemma NeverLedLater(v: View, n: NodeId, t: nat)
    requires Inv(v) && n in v.members && t > v.term[n]
    ensures !Leads(v, n, t) && At(t, n) !in v.vote && At(t, n) !in v.standing
  {
    assert LeaderLogOk(v, t) && VoteOk(v, At(t, n)) && StandingOk(v, At(t, n));
  }

  /** A step in which the node's log, commit index and store stay as they are. */
  lemma QuietNode(c: Cluster, c': Cluster, n: NodeId)
    requires Nodes(c) && Extends(c.view, c'.view) && c'.nodes.Keys == c.nodes.Keys && n in c.nodes
    requires var s, s' := c.nodes[n], c'.nodes[n];
             && s'.log == s.log && s'.commit == s.commit && s'.lastApplied == s.lastApplied && s'.store == s.store
             && s.term <= s'.term
    ensures CommitOk(c', n)
  {
    var s := c.nodes[n];
    assert CommitOk(c, n);
    SafeStable(c.view, c'.view, s.log[..s.commit], s.term, c'.nodes[n].term);
  }

  // ---- Stepping down ----

  lemma StepDownNode(c: Cluster, n: NodeId, t: nat)
    requires ClusterInv(c) && n in c.nodes && t > c.nodes[n].term
    requires Extends(c.view, StepDown(c, n, t).view)
    ensures var c' := StepDown(c, n, t); Tied(c', n) && RoleOk(c', n) && LeaderOk(c', n)
  {
    assert Tied(c, n);
    NeverLedLater(c.view, n, t);
  }

  lemma StepDownKeeps(c: Cluster, n: NodeId, t: nat)
    requires ClusterInv(c) && n in c.nodes && t > c.nodes[n].term
    ensures Kept(c, StepDown(c, n, t))
  {
    assert Tied(c, n);
    BumpKeeps(c.view, n, t);
    var c' := StepDown(c, n, t);
    StepDownNode(c, n, t);
    QuietNode(c, c', n);
    assert Local(c, c', n);
    NodesKept(c, c', n);
    NetworkKept(c, c');
  }

  // ---- Elections ----

  lemma StandNode(c: Cluster, n: NodeId)
    requires ClusterInv(c) && Enabled(c, StandForElection(n))
    requires Extends(c.view, Stand(c.view, n))
    ensures var c' := Next(c, StandForElection(n));
            Tied(c', n) && RoleOk(c', n) && LeaderOk(c', n) && VoteReqOk(c'.view, VoteRequest(c'.nodes[n]))
  {
    hide Extends, Shape, TermAt, Network, Inv, Safe;
    assert Tied(c, n);
    NeverLedLater(c.view, n, c.nodes[n].term + 1);
  }

  lemma StandForElectionKeeps(c: Cluster, n: NodeId)
    requires ClusterInv(c) && Enabled(c, StandForElection(n))
    ensures Kept(c, Next(c, StandForElection(n)))
  {
    hide Inv, Network, RoleOk, Extends;
    assert Tied(c, n);
    var c' := Next(c, StandForElection(n));
    StandKeeps(c.view, n);
    StandNode(c, n);
    QuietNode(c, c', n);
    StandLocal(c, n);
    NodesKept(c, c', n);
    NetworkKept(c, c');
  }

  lemma StandLocal(c: Cluster, n: NodeId)
    requires Nodes(c) && Enabled(c, StandForElection(n)) && Extends(c.view, Stand(c.view, n))
    ensures Local(c, Next(c, StandForElection(n)), n)
  {
    hide Inv;
  }

  /** A vote in the node's own term. */
  lemma VoteNow(c: Cluster, n: NodeId, req: RequestVoteReq)
    requires ClusterInv(c) && n in c.nodes && VoteReqOk(c.view, req) && req.term == c.nodes[n].term && n in c.view.term
    requires OnRequestVote(c.nodes[n], req).1.voteGranted
    ensures Kept(c, AfterVoteRequest(c, n, req))
  {
    hide Inv, Network, Extends;
    var c' := AfterVoteRequest(c, n, req);
    assert CanVote(c.view, n, req.candidateId) by { assert Tied(c, n) && RoleOk(c, n); }
    VoteKeeps(c.view, n, req.candidateId);
    VotedNode(c, n, req);
    QuietNode(c, c', n);
    VotedLocal(c, n, req);
    NodesKept(c, c', n);
    NetworkKept(c, c');
  }

  lemma VotedLocal(c: Cluster, n: NodeId, req: RequestVoteReq)
    requires Nodes(c) && n in c.nodes && req.term == c.nodes[n].term && n in c.view.term
    requires OnRequestVote(c.nodes[n], req).1.voteGranted && Extends(c.view, AfterVoteRequest(c, n, req).view)
    ensures Local(c, AfterVoteRequest(c, n, req), n)
  {
    assert Tied(c, n);
  }

  lemma VotedNode(c: Cluster, n: NodeId, req: RequestVoteReq)
    requires Nodes(c) && n in c.nodes && req.term == c.nodes[n].term && n in c.view.term
    requires OnRequestVote(c.nodes[n], req).1.voteGranted
    requires Extends(c.view, AfterVoteRequest(c, n, req).view)
    ensures var c' := AfterVoteRequest(c, n, req); Tied(c', n) && RoleOk(c', n) && LeaderOk(c', n)
  {
    var c' := AfterVoteRequest(c, n, req);
    var s := c.nodes[n];
    assert Tied(c, n) && RoleOk(c, n) && LeaderOk(c, n);
    if s.role == Candidate {
      assert Voters(c.view, s.term, n) <= Voters(c'.view, s.term, n);
    }
  }

  /** A step that only adds to the network. */
  lemma NetworkOnly(c: Cluster, c': Cluster)
    requires ClusterInv(c)
    requires c'.nodes == c.nodes && c'.view == c.view && c'.ballots == c.ballots && c'.pushed == c.pushed
    requires forall r :: r in c'.open ==> OpenAsBefore(c, c', r) || OpenOk(c'.view, r, c'.open[r])
    requires forall r :: r in c'.voteReqs && r !in c.voteReqs ==> VoteReqOk(c'.view, r)
    requires forall r :: r in c'.voteReplies && r !in c.voteReplies ==> VoteReplyOk(c'.view, r)
    requires forall m :: m in c'.msgs && m !in c.msgs ==> MsgOk(c'.view, m)
    requires forall r :: r in c'.replies && r !in c.replies ==> ReplyOk(c'.view, r)
    requires forall a :: a in c'.acknowledged && a !in c.acknowledged ==> AcknowledgedOk(c'.view, a)
    ensures Kept(c, c')
  {
    hide Network;
    ExtendsItself(c.view);
    NetworkKept(c, c');
    forall n ensures Tied(c', n) && RoleOk(c', n) && LeaderOk(c', n) && CommitOk(c', n) {
      assert Tied(c, n) && RoleOk(c, n) && LeaderOk(c, n) && CommitOk(c, n);
    }
  }

  lemma VoteRequestKeeps(c: Cluster, n: NodeId, req: RequestVoteReq)
    requires ClusterInv(c) && n in c.nodes && VoteReqOk(c.view, req) && n in c.view.term
    ensures Kept(c, AfterVoteRequest(c, n, req))
  {
    hide Inv, Nodes, Network;
    var s := c.nodes[n];
    if req.term > s.term {
      var d := StepDown(c, n, req.term);
      StepDownKeeps(c, n, req.term);
      assert AfterVoteRequest(c, n, req) == AfterVoteRequest(d, n, req);
      VoteRequestKeepsNow(d, n, req);
      KeptTwice(c, d, AfterVoteRequest(d, n, req));
    } else {
      VoteRequestKeepsNow(c, n, req);
    }
  }

  lemma VoteRequestKeepsNow(c: Cluster, n: NodeId, req: RequestVoteReq)
    requires ClusterInv(c) && n in c.nodes && VoteReqOk(c.view, req) && n in c.view.term && req.term <= c.nodes[n].term
    ensures Kept(c, AfterVoteRequest(c, n, req))
  {
    if req.term == c.nodes[n].term && OnRequestVote(c.nodes[n], req).1.voteGranted {
      VoteNow(c, n, req);
    } else {
      var c' := AfterVoteRequest(c, n, req);
      assert c'.nodes == c.nodes;
      NetworkOnly(c, c');
    }
  }

  /** The ballot of a candidate is made of votes cast for it in its term. */
  lemma BallotIsVotes(c: Cluster, n: NodeId, reply: VoteReply)
    requires ClusterInv(c) && n in c.nodes && c.nodes[n].role == Candidate && c.nodes[n].term == reply.req.term
    requires VoteReplyOk(c.view, reply) && reply.req.candidateId == n
    ensures n in c.ballots
    ensures var ballot := c.ballots[n] + if reply.resp.voteGranted then {reply.peer} else {};
            ballot <= Voters(c.view, c.nodes[n].term, n)
  {
    assert RoleOk(c, n);
  }

  lemma CandidateCanBeElected(c: Cluster, n: NodeId)
    requires ClusterInv(c) && n in c.nodes && c.nodes[n].role == Candidate
    requires Quorum(c.view.members, Voters(c.view, c.nodes[n].term, n))
    ensures CanElect(c.view, n)
  {
    assert Tied(c, n) && RoleOk(c, n);
    if c.nodes[n].term in c.view.leader {
      OneLeaderPerTerm(c.view, c.nodes[n].term, n);
    }
  }

  function Elected(c: Cluster, n: NodeId, ballot: set<NodeId>): Cluster
    requires n in c.nodes && n in c.view.term && n in c.view.log
  {
    c.(nodes := c.nodes[n := BecomeLeader(c.nodes[n])], ballots := c.ballots[n := ballot], view := Elect(c.view, n))
  }

  lemma ElectedNode(c: Cluster, n: NodeId, ballot: set<NodeId>)
    requires Nodes(c) && n in c.nodes && n in c.view.term && n in c.view.log
    ensures var c' := Elected(c, n, ballot); Tied(c', n) && RoleOk(c', n) && LeaderOk(c', n)
  {
    var c' := Elected(c, n, ballot);
    assert Tied(c, n) && RoleOk(c, n);
    assert c'.nodes[n].matchIndex.Keys == c.nodes.Keys - {n};
    assert c'.nodes[n].nextIndex.Keys == c.nodes.Keys - {n};
  }

  lemma ElectedLocal(c: Cluster, n: NodeId, ballot: set<NodeId>)
    requires Nodes(c) && n in c.nodes && n in c.view.term && n in c.view.log && CanElect(c.view, n)
    requires Extends(c.view, Elect(c.view, n))
    ensures Local(c, Elected(c, n, ballot), n)
  {
    hide RoleOk, LeaderOk, CommitOk, Tied, BecomeLeader;
  }

  lemma ElectedQuiet(c: Cluster, n: NodeId, ballot: set<NodeId>)
    requires Nodes(c) && n in c.nodes && n in c.view.term && n in c.view.log && CanElect(c.view, n)
    requires Extends(c.view, Elect(c.view, n))
    ensures CommitOk(Elected(c, n, ballot), n)
  {
    hide RoleOk, LeaderOk, CommitOk;
    QuietNode(c, Elected(c, n, ballot), n);
  }

  lemma ElectionWon(c: Cluster, n: NodeId, ballot: set<NodeId>)
    requires ClusterInv(c) && n in c.nodes && c.nodes[n].role == Candidate && n in c.view.term && n in c.view.log
    requires ballot <= Voters(c.view, c.nodes[n].term, n) && |ballot| >= Needed(c)
    ensures Kept(c, Elected(c, n, ballot))
  {
    SubsetSize(ballot, Voters(c.view, c.nodes[n].term, n));
    CandidateCanBeElected(c, n);
    ElectKeeps(c.view, n);
    ElectedNode(c, n, ballot);
    ElectedLocal(c, n, ballot);
    ElectedQuiet(c, n, ballot);
    NodesKept(c, Elected(c, n, ballot), n);
    NetworkKept(c, Elected(c, n, ballot));
  }

  lemma BallotGrows(c: Cluster, n: NodeId, ballot: set<NodeId>)
    requires ClusterInv(c) && n in c.nodes && ballot <= Voters(c.view, c.nodes[n].term, n)
    ensures Kept(c, c.(ballots := c.ballots[n := ballot]))
  {
    hide Network, Safe, Shape;
    var c' := c.(ballots := c.ballots[n := ballot]);
    ExtendsItself(c.view);
    assert Tied(c, n) && RoleOk(c, n) && LeaderOk(c, n) && CommitOk(c, n);
    assert Local(c, c', n);
    NodesKept(c, c', n);
    NetworkKept(c, c');
  }

  lemma VoteReplyKeeps(c: Cluster, n: NodeId, reply: VoteReply)
    requires ClusterInv(c) && Enabled(c, CountVote(n, reply))
    ensures Kept(c, AfterVoteReply(c, n, reply))
  {
    hide Quorum;
    var s := c.nodes[n];
    if s.role != Candidate || s.term != reply.req.term {
      ExtendsItself(c.view);
    } else if reply.resp.term > s.term {
      StepDownKeeps(c, n, reply.resp.term);
    } else {
      assert VoteReplyOk(c.view, reply);
      BallotIsVotes(c, n, reply);
      var ballot := c.ballots[n] + if reply.resp.voteGranted then {reply.peer} else {};
      if |ballot| >= Needed(c) {
        ElectionWon(c, n, ballot);
      } else {
        BallotGrows(c, n, ballot);
      }
    }
  }

  // ---- Requests a node sends ----

  lemma LeaderHoldsLeaderLog(c: Cluster, n: NodeId)
    requires ClusterInv(c) && n in c.nodes && Leads(c.view, n, c.nodes[n].term)
    ensures c.nodes[n].log == c.view.leaderLog[c.nodes[n].term]
    ensures Acked(c.view, n, c.nodes[n].term) == |c.nodes[n].log|
  {
    assert Tied(c, n) && LeaderLogOk(c.view, c.nodes[n].term);
  }

  /** A heartbeat built from the leader's log is all right. */
  lemma HeartbeatOk(c: Cluster, n: NodeId, peer: NodeId)
    requires ClusterInv(c) && n in c.nodes && c.nodes[n].role == Leader && peer in c.nodes[n].peers
    ensures MsgOk(c.view, AppendMsg(Heartbeat, BuildAppendEntries(c.nodes[n], peer)))
  {
    hide Network, Safe, PeersOf;
    var s := c.nodes[n];
    assert Tied(c, n) && RoleOk(c, n) && LeaderOk(c, n) && CommitOk(c, n);
    LeaderHoldsLeaderLog(c, n);
    assert NodeLogOk(c.view, n);
    var req := BuildAppendEntries(s, peer);
    assert peer in (set p | p in s.peers);
    if req.prevLogIndex > 0 {
      PrefixIsSlot(c.view, s.log, req.prevLogIndex);
    }
    assert LeaderLogOk(c.view, s.term);
    if req.entries == [] && req.leaderCommit > 0 {
      assert Chosen(c.view, req.prevLogTerm, req.prevLogIndex)[..req.leaderCommit] == s.log[..s.commit];
    }
  }

  /** The closing request is all right whoever sends it. */
  lemma ClosingOk(c: Cluster, n: NodeId)
    requires ClusterInv(c) && n in c.nodes
    ensures MsgOk(c.view, AppendMsg(Closing, ClosingRequest(c.nodes[n])))
  {
    var s := c.nodes[n];
    assert Tied(c, n) && CommitOk(c, n) && NodeLogOk(c.view, n);
    var req := ClosingRequest(s);
    if req.prevLogIndex > 0 {
      PrefixIsSlot(c.view, s.log, req.prevLogIndex);
    }
    if req.leaderCommit > 0 {
      assert Chosen(c.view, req.prevLogTerm, req.prevLogIndex)[..req.leaderCommit] == s.log[..s.commit];
    }
  }

  // ---- Proposals ----

  /** A one-entry request at the end of a leader log is all right. */
  lemma LastEntryRequestOk(v: View, s: NodeState, e: Entry)
    requires Inv(v) && HeaderFits(s, e) && Leads(v, s.id, s.term) && v.leaderLog[s.term] == s.log
    ensures MsgOk(v, AppendMsg(Proposal, ProposalRequest(s, e)))
  {
    var req := ProposalRequest(s, e);
    assert LeaderLogOk(v, s.term);
    if req.prevLogIndex > 0 {
      PrefixIsSlot(v, s.log, req.prevLogIndex);
    }
    assert s.log[req.prevLogIndex..req.prevLogIndex + 1] == [s.log[req.prevLogIndex]];
    assert s.log[..0] == [];
  }

  lemma PushTied(c: Cluster, n: NodeId, op: Op)
    requires Nodes(c) && Possible(c, PushEntry(n, op)) && Extends(c.view, AfterPush(c, n, op).view)
    ensures var c' := AfterPush(c, n, op); Tied(c', n) && RoleOk(c', n)
  {
    hide LeaderOk, CommitOk, Voters, Extends;
    assert Tied(c, n) && RoleOk(c, n);
  }

  lemma PushLeader(c: Cluster, n: NodeId, op: Op)
    requires Nodes(c) && Possible(c, PushEntry(n, op)) && Extends(c.view, AfterPush(c, n, op).view)
    ensures LeaderOk(AfterPush(c, n, op), n)
  {
    hide CommitOk, Tied, Extends;
    assert Tied(c, n) && RoleOk(c, n) && LeaderOk(c, n);
    var c' := AfterPush(c, n, op);
    var s := c.nodes[n];
    forall p | p in s.matchIndex ensures s.matchIndex[p] <= Acked(c'.view, p, s.term) {
      assert Acked(c.view, p, s.term) <= Acked(c'.view, p, s.term);
    }
  }

  lemma PushLocal(c: Cluster, n: NodeId, op: Op)
    requires Nodes(c) && Possible(c, PushEntry(n, op)) && Extends(c.view, AfterPush(c, n, op).view)
    ensures Local(c, AfterPush(c, n, op), n)
  {
    hide Extends;
    assert Tied(c, n) && RoleOk(c, n);
  }

  lemma PushCommit(c: Cluster, n: NodeId, op: Op)
    requires Nodes(c) && Possible(c, PushEntry(n, op)) && Extends(c.view, AfterPush(c, n, op).view)
    ensures CommitOk(AfterPush(c, n, op), n)
  {
    hide RoleOk, Safe;
    var c' := AfterPush(c, n, op);
    var s, s' := c.nodes[n], c'.nodes[n];
    assert CommitOk(c, n);
    SafeStable(c.view, c'.view, s.log[..s.commit], s.term, s.term);
    assert s'.log[..s.commit] == s.log[..s.commit];
    assert s'.log[..s.lastApplied] == s.log[..s.lastApplied];
  }

  lemma PushNetwork(c: Cluster, n: NodeId, op: Op)
    requires ClusterInv(c) && Possible(c, PushEntry(n, op)) && Extends(c.view, AfterPush(c, n, op).view)
    ensures Network(AfterPush(c, n, op))
  {
    hide Inv, LeaderOk, CommitOk, Network, MsgOk, Extends;
    assert Tied(c, n) && RoleOk(c, n);
    NetworkKept(c, AfterPush(c, n, op));
  }

  lemma PushKeeps(c: Cluster, n: NodeId, op: Op)
    requires ClusterInv(c) && Possible(c, PushEntry(n, op))
    ensures Kept(c, AfterPush(c, n, op))
  {
    hide Inv, Network, LeaderOk, CommitOk, Extends, Local;
    assert CanAppend(c.view, n, Entry(c.nodes[n].term, op)) by { assert Tied(c, n) && RoleOk(c, n); }
    AppendKeeps(c.view, n, Entry(c.nodes[n].term, op));
    PushTied(c, n, op);
    PushLeader(c, n, op);
    PushCommit(c, n, op);
    PushLocal(c, n, op);
    NodesKept(c, AfterPush(c, n, op), n);
    PushNetwork(c, n, op);
  }

  lemma SentOpen(c: Cluster, n: NodeId, e: Entry)
    requires ClusterInv(c) && n in c.nodes && c.nodes[n].id == n && HeaderFits(c.nodes[n], e)
    requires Leads(c.view, n, c.nodes[n].term)
    ensures OpenOk(c.view, ProposalRequest(c.nodes[n], e), {n})
  {
    hide Network, Nodes;
    LeaderHoldsLeaderLog(c, n);
    assert n in c.view.members by { assert LeaderLogOk(c.view, c.nodes[n].term); }
  }

  lemma SendEntryKeeps(c: Cluster, n: NodeId, e: Entry)
    requires ClusterInv(c) && Enabled(c, SendEntry(n, e))
    ensures Kept(c, AfterSend(c, n, e))
  {
    hide Inv, MsgOk, OpenOk, RoleOk, LeaderOk, CommitOk, ProposalRequest;
    assert Tied(c, n) && PushedOk(c.view, Pushed(n, e));
    LeaderHoldsLeaderLog(c, n);
    LastEntryRequestOk(c.view, c.nodes[n], e);
    SentOpen(c, n, e);
    NetworkOnly(c, AfterSend(c, n, e));
  }

  /** Enough acknowledgements are a majority that accepted the entry in its term. */
  lemma EnoughAcks(c: Cluster, r: AppendEntriesReq, acks: set<NodeId>)
    requires ClusterInv(c) && |acks| >= Needed(c) && OpenOk(c.view, r, acks)
    ensures r.entries != [] && AcknowledgedOk(c.view, Acknowledged(r.term, r.prevLogIndex + 1, r.entries[0]))
  {
    hide Inv, Network;
    SubsetSize(acks, AckedBy(c.view, r.term, r.prevLogIndex + 1));
  }

  lemma CloseKeeps(c: Cluster, r: AppendEntriesReq)
    requires ClusterInv(c)
    ensures Kept(c, c.(open := c.open - {r}))
  {
    hide Inv, Network, Nodes, OpenOk;
    NetworkOnly(c, c.(open := c.open - {r}));
  }

  lemma AcksOk(v: View, r: AppendEntriesReq, acks: set<NodeId>, reply: AppendReply)
    requires OpenOk(v, r, acks) && ReplyOk(v, reply) && reply.msg.req == r
    ensures OpenOk(v, r, acks + if reply.resp.success then {reply.peer} else {})
  {
    hide MsgOk;
  }

  lemma AckKeeps(c: Cluster, n: NodeId, reply: AppendReply)
    requires ClusterInv(c) && Enabled(c, CountAck(n, reply))
    ensures Kept(c, AfterAck(c, n, reply))
  {
    hide Inv, Nodes, OpenOk, ReplyOk, MsgOk, AcknowledgedOk, BecomeFollower, Bump, Extends;
    var s, r := c.nodes[n], reply.msg.req;
    if s.role != Leader {
      CloseKeeps(c, r);
    } else if reply.resp.term > s.term {
      var d := StepDown(c, n, reply.resp.term);
      StepDownKeeps(c, n, reply.resp.term);
      CloseKeeps(d, r);
      KeptTwice(c, d, d.(open := d.open - {r}));
    } else {
      AcksOk(c.view, r, c.open[r], reply);
      CountedAck(c, n, reply);
    }
  }

  lemma CountedAck(c: Cluster, n: NodeId, reply: AppendReply)
    requires ClusterInv(c) && Enabled(c, CountAck(n, reply))
    requires c.nodes[n].role == Leader && reply.resp.term <= c.nodes[n].term
    requires var r := reply.msg.req; OpenOk(c.view, r, c.open[r] + if reply.resp.success then {reply.peer} else {})
    ensures Kept(c, AfterAck(c, n, reply))
  {
    hide Inv, Nodes, Network, OpenOk, ReplyOk, MsgOk, AcknowledgedOk;
    var r := reply.msg.req;
    var acks := c.open[r] + if reply.resp.success then {reply.peer} else {};
    if |acks| >= Needed(c) {
      EnoughAcks(c, r, acks);
    }
    NetworkOnly(c, AfterAck(c, n, reply));
  }

  // ---- Receiving entries ----

  /** Everything committed in this term or before is in the leader log of this term. */
  lemma SafeInLeaderLog(v: View, l: Log, t: nat)
    requires Inv(v) && Safe(v, l, t) && t in v.leaderLog
    ensures l <= v.leaderLog[t]
  {
    if l != [] {
      var t0: nat, k: nat :| t0 <= t && Committed(v, t0, k) && l <= Chosen(v, t0, k);
      if t0 < t {
        CommittedIsLive(v, t0, k);
        LaterLeaderHolds(v, t0, k, t);
      }
    }
  }

  /** Cutting back and appending a request's entries leaves a prefix of the leader log. */
  lemma SplicedIsLeaderLog(v: View, log: Log, req: AppendEntriesReq)
    requires Inv(v) && Rooted(v, log) && CarriesOk(v, req) && req.entries != [] && Matches(log, req)
    ensures Spliced(log, req) == v.leaderLog[req.term][..req.prevLogIndex + |req.entries|]
  {
    var full := v.leaderLog[req.term];
    assert LeaderLogOk(v, req.term);
    CheckedPrefix(v, log, full, req.prevLogIndex);
    var k := req.prevLogIndex + |req.entries|;
    assert full[..k] == full[..req.prevLogIndex] + full[req.prevLogIndex..k];
  }

  ghost predicate Delivering(c: Cluster, n: NodeId, m: AppendMsg) {
    && ClusterInv(c) && n in c.nodes && n in c.view.term && MsgOk(c.view, m) && n != m.req.leaderId
    && CutsNothing(c, n, m.req) && (m.req.entries != [] ==> !Leads(c.view, n, m.req.term))
  }

  lemma DeliveredIsOk(c: Cluster, n: NodeId, m: AppendMsg)
    requires ClusterInv(c) && Enabled(c, DeliverAppend(n, m))
    ensures Delivering(c, n, m)
  {
    assert MsgOk(c.view, m);
  }

  /** How much of the leader log the receiver of a request holds afterwards. */
  function Reach(req: AppendEntriesReq): nat {
    req.prevLogIndex + |req.entries|
  }

  /** The case in which the request's entries are taken over. */
  ghost predicate Accepting(c: Cluster, n: NodeId, m: AppendMsg) {
    && Delivering(c, n, m) && m.req.term == c.nodes[n].term && m.req.entries != [] && Matches(c.nodes[n].log, m.req)
    && c.view.term[n] == m.req.term
  }

  lemma AcceptingCan(c: Cluster, n: NodeId, m: AppendMsg)
    requires Accepting(c, n, m)
    ensures CanAccept(c.view, n, Reach(m.req)) && AfterAppendRequest(c, n, m).view == Accept(c.view, n, Reach(m.req))
  {
    hide Inv, Network, RoleOk, LeaderOk, CommitOk;
    assert Tied(c, n);
  }

  /** What a node has committed lies within what any request that cuts nothing leaves. */
  lemma CommittedSurvivesCut(v: View, n: NodeId, l: Log, k: nat)
    requires Inv(v) && CanAccept(v, n, k) && Safe(v, l, v.term[n]) && l <= v.log[n]
    ensures l <= v.leaderLog[v.term[n]][..k]
  {
    hide Safe, Completeness;
    var t := v.term[n];
    SafeInLeaderLog(v, l, t);
    assert LeaderLogOk(v, t) && OwnTermOk(v, n);
    if l != [] {
      var i := |l| - 1;
      var last := v.log[n][i];
      assert last == l[i] == v.leaderLog[t][i];
      assert i >= k ==> last.term == t;
    }
  }

  lemma AcceptedLog(c: Cluster, n: NodeId, m: AppendMsg)
    requires Accepting(c, n, m) && CanAccept(c.view, n, Reach(m.req))
    ensures AfterAppendRequest(c, n, m).nodes[n].log == c.view.leaderLog[m.req.term][..Reach(m.req)]
    ensures var s := c.nodes[n];
            s.commit <= |s.log| && s.log[..s.commit] <= c.view.leaderLog[m.req.term][..Reach(m.req)]
  {
    hide Network, Safe, RoleOk, LeaderOk;
    var s := c.nodes[n];
    assert Tied(c, n) && CommitOk(c, n) && NodeLogOk(c.view, n);
    SplicedIsLeaderLog(c.view, s.log, m.req);
    CommittedSurvivesCut(c.view, n, s.log[..s.commit], Reach(m.req));
  }

  lemma AcceptedCommit(c: Cluster, n: NodeId, m: AppendMsg)
    requires Accepting(c, n, m) && CanAccept(c.view, n, Reach(m.req))
    requires Extends(c.view, AfterAppendRequest(c, n, m).view)
    requires AfterAppendRequest(c, n, m).nodes[n].log == c.view.leaderLog[m.req.term][..Reach(m.req)]
    requires var s := c.nodes[n];
             s.commit <= |s.log| && s.log[..s.commit] <= c.view.leaderLog[m.req.term][..Reach(m.req)]
    ensures CommitOk(AfterAppendRequest(c, n, m), n)
  {
    hide Safe, Extends, Inv, Network, RoleOk, LeaderOk, Tied, CanAccept;
    assert CommitOk(c, n);
    var c' := AfterAppendRequest(c, n, m);
    var s, s' := c.nodes[n], c'.nodes[n];
    var full := c.view.leaderLog[m.req.term];
    assert full[..s.commit] == s.log[..s.commit];
    assert s'.log[..s.lastApplied] == s.log[..s.commit][..s.lastApplied] == s.log[..s.lastApplied];
    assert s'.commit == if m.req.leaderCommit > s.commit then m.req.leaderCommit else s.commit;
    assert s'.log[..s'.commit] == full[..s'.commit];
    SafeStable(c.view, c'.view, full[..s'.commit], s.term, s.term);
  }

  lemma AcceptedNode(c: Cluster, n: NodeId, m: AppendMsg)
    requires Accepting(c, n, m) && CanAccept(c.view, n, Reach(m.req))
    requires AfterAppendRequest(c, n, m).view == Accept(c.view, n, Reach(m.req))
    requires AfterAppendRequest(c, n, m).nodes[n].log == c.view.leaderLog[m.req.term][..Reach(m.req)]
    ensures var c' := AfterAppendRequest(c, n, m); Tied(c', n) && RoleOk(c', n) && LeaderOk(c', n)
  {
    hide Network, Inv, CommitOk, MsgOk, Voters, Extends;
    assert Tied(c, n) && RoleOk(c, n);
  }

  lemma AcceptedNetwork(c: Cluster, n: NodeId, m: AppendMsg)
    requires Accepting(c, n, m) && CanAccept(c.view, n, Reach(m.req))
    requires AfterAppendRequest(c, n, m).view == Accept(c.view, n, Reach(m.req))
    requires Extends(c.view, AfterAppendRequest(c, n, m).view)
    ensures Network(AfterAppendRequest(c, n, m))
  {
    hide Extends, Inv, Nodes;
    var c' := AfterAppendRequest(c, n, m);
    MsgStable(c.view, c'.view, m);
    NetworkKept(c, c');
  }

  lemma AcceptedLocal(c: Cluster, n: NodeId, m: AppendMsg)
    requires Accepting(c, n, m) && CanAccept(c.view, n, Reach(m.req))
    requires AfterAppendRequest(c, n, m).view == Accept(c.view, n, Reach(m.req))
    requires Extends(c.view, AfterAppendRequest(c, n, m).view)
    ensures Local(c, AfterAppendRequest(c, n, m), n)
  {
    hide Inv, Network, MsgOk, RoleOk, LeaderOk, CommitOk, Extends;
  }

  lemma AcceptedKeeps(c: Cluster, n: NodeId, m: AppendMsg)
    requires Accepting(c, n, m)
    ensures Kept(c, AfterAppendRequest(c, n, m))
  {
    hide Inv, Network, AfterAppendRequest, CanAccept, Extends, Tied, RoleOk, LeaderOk, CommitOk, Local, MsgOk;
    AcceptingCan(c, n, m);
    AcceptKeeps(c.view, n, Reach(m.req));
    AcceptedLog(c, n, m);
    AcceptedCommit(c, n, m);
    AcceptedNode(c, n, m);
    AcceptedNetwork(c, n, m);
    AcceptedLocal(c, n, m);
    NodesKept(c, AfterAppendRequest(c, n, m), n);
  }

  /** An accepted empty request: the commit index moves within the checked prefix. */
  lemma EmptyCommit(c: Cluster, n: NodeId, m: AppendMsg)
    requires Delivering(c, n, m) && m.req.term == c.nodes[n].term && m.req.entries == []
             && Matches(c.nodes[n].log, m.req)
    ensures CommitOk(AfterAppendRequest(c, n, m), n)
  {
    hide Network, Safe;
    var s, req := c.nodes[n], m.req;
    assert Tied(c, n) && CommitOk(c, n) && NodeLogOk(c.view, n);
    if req.leaderCommit > s.commit {
      PrefixIsSlot(c.view, s.log, req.prevLogIndex);
      assert s.log[..req.prevLogIndex][..req.leaderCommit] == s.log[..req.leaderCommit];
    }
  }

  lemma UnsplicedNode(c: Cluster, n: NodeId, m: AppendMsg)
    requires Delivering(c, n, m) && m.req.term == c.nodes[n].term
    requires m.req.entries == [] || !Matches(c.nodes[n].log, m.req)
    ensures var c' := AfterAppendRequest(c, n, m);
            Tied(c', n) && RoleOk(c', n) && LeaderOk(c', n) && c'.view == c.view
  {
    hide Inv;
    assert Tied(c, n) && RoleOk(c, n) && LeaderOk(c, n);
  }

  lemma UnsplicedKeeps(c: Cluster, n: NodeId, m: AppendMsg)
    requires Delivering(c, n, m) && m.req.term == c.nodes[n].term
    requires m.req.entries == [] || !Matches(c.nodes[n].log, m.req)
    ensures Kept(c, AfterAppendRequest(c, n, m))
  {
    hide Safe, Inv, Network, Extends;
    var c' := AfterAppendRequest(c, n, m);
    UnsplicedLocal(c, n, m);
    UnsplicedNode(c, n, m);
    if Matches(c.nodes[n].log, m.req) {
      EmptyCommit(c, n, m);
    } else {
      assert CommitOk(c, n);
    }
    NodesKept(c, c', n);
    NetworkKept(c, c');
  }

  lemma UnsplicedLocal(c: Cluster, n: NodeId, m: AppendMsg)
    requires Delivering(c, n, m) && m.req.term == c.nodes[n].term
    requires m.req.entries == [] || !Matches(c.nodes[n].log, m.req)
    ensures Local(c, AfterAppendRequest(c, n, m), n)
  {
    hide Completeness;
    ExtendsItself(c.view);
  }

  lemma AppendRequestKeepsNow(c: Cluster, n: NodeId, m: AppendMsg)
    requires Delivering(c, n, m) && m.req.term <= c.nodes[n].term
    ensures Kept(c, AfterAppendRequest(c, n, m))
  {
    if m.req.term < c.nodes[n].term {
      var c' := AfterAppendRequest(c, n, m);
      assert c'.nodes == c.nodes;
      NetworkOnly(c, c');
    } else if m.req.entries == [] || !Matches(c.nodes[n].log, m.req) {
      UnsplicedKeeps(c, n, m);
    } else {
      assert Tied(c, n);
      AcceptedKeeps(c, n, m);
    }
  }

  /** A later-term request acts like one received after stepping down to its term. */
  lemma AppendAfterStepDown(c: Cluster, n: NodeId, m: AppendMsg)
    requires n in c.nodes && n in c.view.term && m.req.term > c.nodes[n].term
    ensures AfterAppendRequest(c, n, m) == AfterAppendRequest(StepDown(c, n, m.req.term), n, m)
  {
  }

  lemma DeliverAfterStepDown(c: Cluster, n: NodeId, m: AppendMsg)
    requires Delivering(c, n, m) && m.req.term > c.nodes[n].term
    ensures Kept(c, StepDown(c, n, m.req.term)) && Delivering(StepDown(c, n, m.req.term), n, m)
  {
    StepDownKeeps(c, n, m.req.term);
    MsgStable(c.view, StepDown(c, n, m.req.term).view, m);
  }

  lemma AppendRequestKeeps(c: Cluster, n: NodeId, m: AppendMsg)
    requires ClusterInv(c) && Enabled(c, DeliverAppend(n, m))
    ensures Kept(c, AfterAppendRequest(c, n, m))
  {
    hide ClusterInv, AfterAppendRequest, Extends;
    DeliveredIsOk(c, n, m);
    if m.req.term > c.nodes[n].term {
      var d := StepDown(c, n, m.req.term);
      DeliverAfterStepDown(c, n, m);
      AppendAfterStepDown(c, n, m);
      AppendRequestKeepsNow(d, n, m);
      KeptTwice(c, d, AfterAppendRequest(d, n, m));
    } else {
      AppendRequestKeepsNow(c, n, m);
    }
  }

  // ---- Heartbeat replies and the commit rule ----

  lemma HoldersAcked(c: Cluster, n: NodeId, k: nat)
    requires ClusterInv(c) && n in c.nodes && Leads(c.view, n, c.nodes[n].term) && k <= |c.nodes[n].log|
    ensures var s := c.nodes[n]; Supporters(s, k) + {n} <= AckedBy(c.view, s.term, k) && n !in Supporters(s, k)
  {
    hide Network, RoleOk, CommitOk;
    assert Tied(c, n) && LeaderOk(c, n);
    LeaderHoldsLeaderLog(c, n);
    assert LeaderLogOk(c.view, c.nodes[n].term);
  }

  lemma LeaderTermPositive(c: Cluster, n: NodeId)
    requires ClusterInv(c) && n in c.nodes && Leads(c.view, n, c.nodes[n].term)
    ensures c.nodes[n].term > 0
  {
    assert LeaderLogOk(c.view, c.nodes[n].term) && StandingOk(c.view, At(c.nodes[n].term, n));
  }

  /** Half of the nodes hold the match index the commit rule picks, whatever the size of the cluster. */
  lemma MajorityIsCommitted(c: Cluster, n: NodeId, k: nat)
    requires ClusterInv(c) && n in c.nodes && Leads(c.view, n, c.nodes[n].term)
    requires IsMajorityIndex(c.nodes[n], k) && k > 0 && TermAt(c.nodes[n].log, k) == c.nodes[n].term
    ensures Committed(c.view, c.nodes[n].term, k)
  {
    hide Network, RoleOk, CommitOk, Supporters, Tied, MsgOk, Acked, LastTerm, Below;
    var s := c.nodes[n];
    assert Tied(c, n) && LeaderOk(c, n);
    LeaderHoldsLeaderLog(c, n);
    LeaderTermPositive(c, n);
    HoldersAcked(c, n, k);
    assert s.matchIndex.Keys + {n} == c.nodes.Keys;
    assert |c.nodes.Keys| == |s.matchIndex.Keys| + 1;
    assert |Supporters(s, k) + {n}| == |Supporters(s, k)| + 1;
    SubsetSize(Supporters(s, k) + {n}, AckedBy(c.view, s.term, k));
  }

  /** Changing nothing but `nextIndex`, `matchIndex` and `commit` of a node. */
  lemma IndicesOnly(c: Cluster, n: NodeId, s: NodeState)
    requires Nodes(c) && n in c.nodes
    requires s == c.nodes[n].(nextIndex := s.nextIndex, matchIndex := s.matchIndex, commit := s.commit)
    requires s.nextIndex.Keys <= c.nodes.Keys - {n} && s.matchIndex.Keys <= c.nodes.Keys - {n}
    ensures var c' := SetNode(c, n, s); Tied(c', n) && RoleOk(c', n)
    ensures s.commit == c.nodes[n].commit ==> CommitOk(SetNode(c, n, s), n)
  {
    assert Tied(c, n) && RoleOk(c, n) && CommitOk(c, n);
  }

  lemma RecordedLeader(c: Cluster, n: NodeId, reply: AppendReply, majority: nat)
    requires ClusterInv(c) && n in c.nodes && ReplyOk(c.view, reply) && reply.msg.req.leaderId == n
    requires RecordHolds(c, n, reply, majority)
    ensures LeaderOk(SetNode(c, n, RecordMatch(c.nodes[n], reply.peer, reply.msg.req)), n)
  {
    hide Network, RoleOk, CommitOk, MsgOk, Quorum, Completeness, Shape;
    assert Tied(c, n) && LeaderOk(c, n);
    var s, req := c.nodes[n], reply.msg.req;
    if Leads(c.view, n, s.term) {
      LeaderHoldsLeaderLog(c, n);
      assert AckOk(c.view, At(s.term, reply.peer));
      var s' := RecordMatch(s, reply.peer, req);
      assert s'.matchIndex.Keys == s.matchIndex.Keys;
      assert s'.nextIndex.Keys == s.nextIndex.Keys;
    }
  }

  lemma RecordMatchKeeps(c: Cluster, n: NodeId, reply: AppendReply, majority: nat)
    requires ClusterInv(c) && n in c.nodes && ReplyOk(c.view, reply) && reply.msg.req.leaderId == n
    requires RecordHolds(c, n, reply, majority)
    ensures Kept(c, SetNode(c, n, RecordMatch(c.nodes[n], reply.peer, reply.msg.req)))
  {
    hide Inv, Network, RoleOk, LeaderOk, CommitOk, MsgOk, Extends, RecordHolds;
    assert Tied(c, n);
    var s' := RecordMatch(c.nodes[n], reply.peer, reply.msg.req);
    assert s'.matchIndex.Keys <= c.nodes.Keys - {n};
    assert s'.nextIndex.Keys <= c.nodes.Keys - {n};
    RecordedLeader(c, n, reply, majority);
    IndicesOnly(c, n, s');
    SetNodeKeeps(c, n, s');
  }

  /** A step that changes one node and nothing else. */
  lemma SetNodeKeeps(c: Cluster, n: NodeId, s: NodeState)
    requires ClusterInv(c) && n in c.nodes
    requires var c' := SetNode(c, n, s); Tied(c', n) && RoleOk(c', n) && LeaderOk(c', n) && CommitOk(c', n)
    ensures Kept(c, SetNode(c, n, s))
  {
    var c' := SetNode(c, n, s);
    ExtendsItself(c.view);
    assert Local(c, c', n);
    NodesKept(c, c', n);
    NetworkKept(c, c');
  }

  lemma AdvancedCommit(c: Cluster, n: NodeId, k: nat)
    requires ClusterInv(c) && n in c.nodes && Leads(c.view, n, c.nodes[n].term) && IsMajorityIndex(c.nodes[n], k)
    ensures CommitOk(SetNode(c, n, AdvanceCommit(c.nodes[n], k)), n)
  {
    var s := c.nodes[n];
    assert CommitOk(c, n);
    if k > s.commit && TermAt(s.log, k) == s.term {
      MajorityIsCommitted(c, n, k);
      LeaderHoldsLeaderLog(c, n);
      assert s.log[..k] <= Chosen(c.view, s.term, k);
    }
  }

  lemma AdvanceCommitKeeps(c: Cluster, n: NodeId, k: nat)
    requires ClusterInv(c) && n in c.nodes && Leads(c.view, n, c.nodes[n].term) && IsMajorityIndex(c.nodes[n], k)
    ensures Kept(c, SetNode(c, n, AdvanceCommit(c.nodes[n], k)))
  {
    hide Inv, Network, IsMajorityIndex, Extends;
    assert LeaderOk(c, n);
    AdvancedCommit(c, n, k);
    IndicesOnly(c, n, AdvanceCommit(c.nodes[n], k));
    SetNodeKeeps(c, n, AdvanceCommit(c.nodes[n], k));
  }

  lemma BacktrackKeeps(c: Cluster, n: NodeId, peer: NodeId)
    requires ClusterInv(c) && n in c.nodes
    ensures Kept(c, SetNode(c, n, Backtrack(c.nodes[n], peer)))
  {
    hide Inv, Network, RoleOk, CommitOk, Extends;
    assert LeaderOk(c, n);
    var s' := Backtrack(c.nodes[n], peer);
    assert Tied(c, n) && s'.nextIndex.Keys == c.nodes[n].nextIndex.Keys;
    IndicesOnly(c, n, s');
    SetNodeKeeps(c, n, s');
  }

  lemma HeartbeatSuccessKeeps(c: Cluster, n: NodeId, reply: AppendReply, majority: nat)
    requires ClusterInv(c) && n in c.nodes && ReplyOk(c.view, reply) && reply.msg.req.leaderId == n
    requires RecordHolds(c, n, reply, majority)
    requires IsMajorityIndex(RecordMatch(c.nodes[n], reply.peer, reply.msg.req), majority)
    ensures Kept(c, SetNode(c, n, AdvanceCommit(RecordMatch(c.nodes[n], reply.peer, reply.msg.req), majority)))
  {
    hide ClusterInv, Kept, IsMajorityIndex, ReplyOk, SetNode, Extends;
    var s1 := RecordMatch(c.nodes[n], reply.peer, reply.msg.req);
    RecordMatchKeeps(c, n, reply, majority);
    if Leads(c.view, n, s1.term) {
      AdvanceAfter(c, n, s1, majority);
    }
  }

  lemma AdvanceAfter(c: Cluster, n: NodeId, s1: NodeState, k: nat)
    requires n in c.nodes && Kept(c, SetNode(c, n, s1)) && Leads(c.view, n, s1.term) && IsMajorityIndex(s1, k)
    ensures Kept(c, SetNode(c, n, AdvanceCommit(s1, k)))
  {
    hide Inv, Network;
    var d := SetNode(c, n, s1);
    var e := SetNode(d, n, AdvanceCommit(s1, k));
    AdvanceCommitKeeps(d, n, k);
    KeptTwice(c, d, e);
    assert e.nodes == SetNode(c, n, AdvanceCommit(s1, k)).nodes;
  }

  lemma HeartbeatReplyKeeps(c: Cluster, n: NodeId, reply: AppendReply, majority: nat)
    requires ClusterInv(c) && Enabled(c, HandleHeartbeatReply(n, reply, majority))
    ensures Kept(c, AfterHeartbeatReply(c, n, reply, majority))
  {
    hide Inv, Nodes, ReplyOk, Kept, RecordHolds, IsMajorityIndex;
    if reply.resp.term > c.nodes[n].term {
      StepDownKeeps(c, n, reply.resp.term);
    } else if reply.resp.success {
      assert ReplyOk(c.view, reply);
      HeartbeatSuccessKeeps(c, n, reply, majority);
    } else {
      BacktrackKeeps(c, n, reply.peer);
    }
  }

  // ---- Applying ----

  lemma OpsSnoc(log: Log, k: nat)
    requires k < |log|
    ensures Ops(log[..k + 1]) == Ops(log[..k]) + [log[k].op]
  {
  }

  lemma ApplyKeeps(c: Cluster, n: NodeId)
    requires ClusterInv(c) && Enabled(c, ApplyEntry(n))
    ensures Kept(c, SetNode(c, n, ApplyNext(c.nodes[n])))
  {
    hide Inv, Network, Safe, Fold, Ops, Extends;
    var s := c.nodes[n];
    assert Tied(c, n) && RoleOk(c, n) && LeaderOk(c, n) && CommitOk(c, n);
    OpsSnoc(s.log, s.lastApplied);
    FoldSnoc(map[], Ops(s.log[..s.lastApplied]), s.log[s.lastApplied].op);
    SetNodeKeeps(c, n, ApplyNext(s));
  }

  // ---- All together ----

  lemma InitOk(c: Cluster)
    requires Init(c)
    ensures ClusterInv(c)
  {
    InitialInv(c.nodes.Keys);
    forall n ensures Tied(c, n) && RoleOk(c, n) && LeaderOk(c, n) && CommitOk(c, n) {
      if n in c.nodes {
        assert c.nodes[n] == InitialNode(n, c.nodes[n].peers);
      }
    }
  }

  lemma SendKeeps(c: Cluster, step: Step)
    requires ClusterInv(c) && Enabled(c, step)
    requires step.SendHeartbeat? || step.SendClosing? || step.LoseVote? || step.LoseAppend?
    ensures Kept(c, Next(c, step))
  {
    hide Inv, BuildAppendEntries, ClosingRequest, Extends, MsgOk;
    match step {
      case SendHeartbeat(n, peer) => HeartbeatOk(c, n, peer);
      case SendClosing(n) => ClosingOk(c, n);
      case LoseAppend(n, m) => assert MsgOk(c.view, m);
      case LoseVote(_, _) =>
    }
    NetworkOnly(c, Next(c, step));
  }

  lemma ElectionStepKeeps(c: Cluster, step: Step)
    requires ClusterInv(c) && Enabled(c, step)
    requires step.StandForElection? || step.DeliverVote? || step.CountVote?
    ensures Kept(c, Next(c, step))
  {
    match step
    case StandForElection(n) => StandForElectionKeeps(c, n);
    case DeliverVote(n, req) => VoteRequestKeeps(c, n, req);
    case CountVote(n, reply) => VoteReplyKeeps(c, n, reply);
  }

  /** The invariant is inductive, and history only grows. */
  lemma StepKeeps(c: Cluster, step: Step)
    requires ClusterInv(c) && Enabled(c, step)
    ensures Kept(c, Next(c, step))
  {
    hide Network, RoleOk, Shape;
    match step
    case DeliverAppend(n, m) => AppendRequestKeeps(c, n, m);
    case HandleHeartbeatReply(n, reply, majority) => HeartbeatReplyKeeps(c, n, reply, majority);
    case HandleClosingReply(n, reply) =>
      if reply.resp.term > c.nodes[n].term { StepDownKeeps(c, n, reply.resp.term); } else { ExtendsItself(c.view); }
    case PushEntry(n, op) => PushKeeps(c, n, op);
    case SendEntry(n, e) => SendEntryKeeps(c, n, e);
    case CountAck(n, reply) => AckKeeps(c, n, reply);
    case AbandonProposal(_, req) => CloseKeeps(c, req);
    case ApplyEntry(n) => ApplyKeeps(c, n);
    case StandForElection(_) => ElectionStepKeeps(c, step);
    case DeliverVote(_, _) => ElectionStepKeeps(c, step);
    case CountVote(_, _) => ElectionStepKeeps(c, step);
    case SendHeartbeat(_, _) => SendKeeps(c, step);
    case SendClosing(_) => SendKeeps(c, step);
    case LoseVote(_, _) => SendKeeps(c, step);
    case LoseAppend(_, _) => SendKeeps(c, step);
  }
}
