/** Election Safety without any restriction on the steps: votes and roles do not depend on what happens
    to logs, so at most one node leads a term in every run of everything the code can do. */
module RaftElection {
  import opened KvOps
  import opened RaftTypes
  import opened Quorums
  import opened RaftCore
  import opened RaftCluster

  // ---- An invariant about terms, votes, ballots and roles alone ----

  ghost predicate NodeVoteOk(c: Cluster, n: NodeId) {
    n in c.nodes ==>
      var s := c.nodes[n];
      && s.id == n && n in c.view.term && c.view.term[n] == s.term
      && (s.votedFor.None? ==> At(s.term, n) !in c.view.vote)
      && (s.votedFor.Some? ==> At(s.term, n) in c.view.vote && c.view.vote[At(s.term, n)] == s.votedFor.value)
      && (s.role == Leader ==> Leads(c.view, n, s.term))
      && (s.role == Candidate ==> n in c.ballots && c.ballots[n] <= Voters(c.view, s.term, n))
  }

  /** No vote of a node is of a later term than its own. */
  ghost predicate CastOk(c: Cluster, p: At) {
    p in c.view.vote ==> p.node in c.nodes && p.term <= c.nodes[p.node].term
  }

  ghost predicate WonOk(v: View, t: nat) {
    t in v.leader ==> Quorum(v.members, Voters(v, t, v.leader[t]))
  }

  ghost predicate GrantOk(v: View, r: VoteReply) {
    r.resp.voteGranted ==>
      r.peer in v.members && At(r.req.term, r.peer) in v.vote && v.vote[At(r.req.term, r.peer)] == r.req.candidateId
  }

  ghost predicate VoteInv(c: Cluster) {
    && c.view.members == c.nodes.Keys
    && (forall n :: NodeVoteOk(c, n))
    && (forall p :: CastOk(c, p))
    && (forall t :: WonOk(c.view, t))
    && (forall r :: r in c.voteReplies ==> GrantOk(c.view, r))
  }

  /** Votes are not taken back and leaders stay on record. */
  ghost predicate VotesStay(v: View, w: View) {
    && v.members == w.members
    && (forall p :: p in v.vote ==> p in w.vote && w.vote[p] == v.vote[p])
    && (forall t :: t in v.leader ==> t in w.leader && w.leader[t] == v.leader[t])
  }

  ghost predicate VoteKept(c: Cluster, c': Cluster) {
    VoteInv(c') && VotesStay(c.view, c'.view)
  }

  lemma VoteKeptTwice(c: Cluster, d: Cluster, e: Cluster)
    requires VoteKept(c, d) && VoteKept(d, e)
    ensures VoteKept(c, e)
  {
    hide VoteInv;
  }

  lemma VotersStay(v: View, w: View, t: nat, c: NodeId)
    requires VotesStay(v, w)
    ensures Voters(v, t, c) <= Voters(w, t, c)
    ensures Quorum(v.members, Voters(v, t, c)) ==> Quorum(w.members, Voters(w, t, c))
  {
    if Quorum(v.members, Voters(v, t, c)) {
      QuorumMonotone(v.members, Voters(v, t, c), Voters(w, t, c));
    }
  }

  /** A step that touches votes of node `n` only. */
  ghost predicate VoteLocal(c: Cluster, c': Cluster, n: NodeId) {
    && n in c.nodes && c'.nodes.Keys == c.nodes.Keys && VotesStay(c.view, c'.view)
    && (forall m :: m != n && m in c.nodes ==> c'.nodes[m] == c.nodes[m])
    && (forall m :: m != n && m in c.view.term ==> m in c'.view.term && c'.view.term[m] == c.view.term[m])
    && (forall m :: m != n && m in c.ballots ==> m in c'.ballots && c'.ballots[m] == c.ballots[m])
    && (forall p :: p in c'.view.vote && p !in c.view.vote ==> p == At(c'.nodes[n].term, n))
    && c.nodes[n].term <= c'.nodes[n].term
  }

  lemma OtherNodeVote(c: Cluster, c': Cluster, n: NodeId, m: NodeId)
    requires VoteLocal(c, c', n) && m != n && NodeVoteOk(c, m)
    ensures NodeVoteOk(c', m)
  {
    hide Voters;
    if m in c.nodes {
      VotersStay(c.view, c'.view, c.nodes[m].term, m);
    }
  }

  /** Such a step keeps the invariant if it keeps it for `n`, for new leaders and for new replies. */
  lemma VoteLocalKeeps(c: Cluster, c': Cluster, n: NodeId)
    requires VoteInv(c) && VoteLocal(c, c', n) && NodeVoteOk(c', n)
    requires forall t :: t in c'.view.leader && t !in c.view.leader ==> WonOk(c'.view, t)
    requires forall r :: r in c'.voteReplies && r !in c.voteReplies ==> GrantOk(c'.view, r)
    ensures VoteKept(c, c')
  {
    hide Voters, Quorum;
    forall m ensures NodeVoteOk(c', m) { assert NodeVoteOk(c, m); if m != n { OtherNodeVote(c, c', n, m); } }
    forall p ensures CastOk(c', p) { assert CastOk(c, p); }
    forall t ensures WonOk(c'.view, t) {
      assert WonOk(c.view, t);
      if t in c.view.leader { VotersStay(c.view, c'.view, t, c.view.leader[t]); }
    }
  }

  // ---- The kinds of step ----

  /** Nothing about votes changes, except that a node may fall back to follower. */
  ghost predicate VoteFree(c: Cluster, c': Cluster, n: NodeId) {
    && n in c.nodes && n in c'.nodes && c'.nodes == c.nodes[n := c'.nodes[n]] && c'.ballots == c.ballots
      && c'.voteReplies == c.voteReplies
    && c'.view.members == c.view.members && c'.view.term == c.view.term
    && c'.view.vote == c.view.vote && c'.view.leader == c.view.leader
    && var s, s' := c.nodes[n], c'.nodes[n];
    s'.id == s.id && s'.term == s.term && s'.votedFor == s.votedFor && (s'.role == s.role || s'.role == Follower)
  }

  lemma VoteFreeKeeps(c: Cluster, c': Cluster, n: NodeId)
    requires VoteInv(c) && VoteFree(c, c', n)
    ensures VoteKept(c, c')
  {
    hide Quorum;
    assert NodeVoteOk(c, n);
    assert Voters(c'.view, c.nodes[n].term, n) == Voters(c.view, c.nodes[n].term, n);
    VoteLocalKeeps(c, c', n);
  }

  lemma StepDownKeepsVotes(c: Cluster, n: NodeId, t: nat, leader: Option<NodeId>)
    requires VoteInv(c) && n in c.nodes && t > c.nodes[n].term
    ensures VoteKept(c, SetNode(c, n, BecomeFollower(c.nodes[n], t, leader)).(view := Bump(c.view, n, t)))
  {
    hide Voters, Quorum;
    var c' := SetNode(c, n, BecomeFollower(c.nodes[n], t, leader)).(view := Bump(c.view, n, t));
    assert NodeVoteOk(c, n) && CastOk(c, At(t, n));
    VoteLocalKeeps(c, c', n);
  }

  lemma StandKeepsVotes(c: Cluster, n: NodeId)
    requires VoteInv(c) && Possible(c, StandForElection(n))
    ensures VoteKept(c, Next(c, StandForElection(n)))
  {
    hide Quorum;
    var c' := Next(c, StandForElection(n));
    var t := c.nodes[n].term + 1;
    assert NodeVoteOk(c, n) && CastOk(c, At(t, n));
    assert n in Voters(c'.view, t, n);
    VoteLocalKeeps(c, c', n);
  }

  /** The vote `n` casts in its own term, if it does. */
  lemma VoteNowNode(c: Cluster, n: NodeId, req: RequestVoteReq)
    requires n in c.nodes && n in c.view.term && req.term <= c.nodes[n].term && NodeVoteOk(c, n)
    ensures NodeVoteOk(AfterVoteRequest(c, n, req), n)
  {
    hide Voters, Quorum, UpToDate;
    var c' := AfterVoteRequest(c, n, req);
    VoteNowLocal(c, n, req);
    VotersStay(c.view, c'.view, c.nodes[n].term, n);
  }

  lemma VoteNowLocal(c: Cluster, n: NodeId, req: RequestVoteReq)
    requires n in c.nodes && n in c.view.term && req.term <= c.nodes[n].term && NodeVoteOk(c, n)
    ensures VoteLocal(c, AfterVoteRequest(c, n, req), n)
  {
    hide UpToDate, Voters;
  }

  lemma VoteNowReply(c: Cluster, n: NodeId, req: RequestVoteReq, r: VoteReply)
    requires VoteInv(c) && n in c.nodes && n in c.view.term && req.term <= c.nodes[n].term
    requires r in AfterVoteRequest(c, n, req).voteReplies && r !in c.voteReplies
    ensures GrantOk(AfterVoteRequest(c, n, req).view, r)
  {
    hide UpToDate, Voters;
    assert NodeVoteOk(c, n);
  }

  lemma VoteNowKeepsVotes(c: Cluster, n: NodeId, req: RequestVoteReq)
    requires VoteInv(c) && n in c.nodes && n in c.view.term && req.term <= c.nodes[n].term
    ensures VoteKept(c, AfterVoteRequest(c, n, req))
  {
    hide NodeVoteOk, VoteLocal, GrantOk, UpToDate;
    var c' := AfterVoteRequest(c, n, req);
    assert NodeVoteOk(c, n);
    VoteNowNode(c, n, req);
    VoteNowLocal(c, n, req);
    forall r | r in c'.voteReplies && r !in c.voteReplies ensures GrantOk(c'.view, r) {
      VoteNowReply(c, n, req, r);
    }
    VoteLocalKeeps(c, c', n);
  }

  lemma VoteRequestKeepsVotes(c: Cluster, n: NodeId, req: RequestVoteReq)
    requires VoteInv(c) && n in c.nodes && n in c.view.term
    ensures VoteKept(c, AfterVoteRequest(c, n, req))
  {
    hide VoteInv, UpToDate;
    if req.term > c.nodes[n].term {
      var d := StepDown(c, n, req.term);
      StepDownKeepsVotes(c, n, req.term, None);
      assert AfterVoteRequest(c, n, req) == AfterVoteRequest(d, n, req);
      VoteNowKeepsVotes(d, n, req);
      VoteKeptTwice(c, d, AfterVoteRequest(d, n, req));
    } else {
      VoteNowKeepsVotes(c, n, req);
    }
  }

  lemma BallotIsQuorum(c: Cluster, n: NodeId, ballot: set<NodeId>)
    requires n in c.nodes && c.view.members == c.nodes.Keys
    requires ballot <= Voters(c.view, c.nodes[n].term, n) && |ballot| >= Needed(c)
    ensures Quorum(c.view.members, Voters(c.view, c.nodes[n].term, n))
  {
    SubsetSize(ballot, Voters(c.view, c.nodes[n].term, n));
    assert |c.nodes| == |c.nodes.Keys|;
  }

  /** A node votes once in a term, so two majorities are for the same candidate. */
  lemma SameWinner(v: View, t: nat, n: NodeId, m: NodeId)
    requires Quorum(v.members, Voters(v, t, n)) && Quorum(v.members, Voters(v, t, m))
    ensures n == m
  {
    var x := QuorumsMeet(v.members, Voters(v, t, n), Voters(v, t, m));
  }

  /** A majority of votes for `n` makes it the leader of its term, and no one else is. */
  lemma ElectedKeepsVotes(c: Cluster, n: NodeId, ballot: set<NodeId>)
    requires VoteInv(c) && n in c.nodes && n in c.view.term && n in c.view.log && c.nodes[n].role == Candidate
    requires ballot <= Voters(c.view, c.nodes[n].term, n) && |ballot| >= Needed(c)
    ensures VoteKept(c, c.(nodes := c.nodes[n := BecomeLeader(c.nodes[n])],
                           ballots := c.ballots[n := ballot], view := Elect(c.view, n)))
  {
    hide Quorum, Voters, Filled;
    var c' := c.(nodes := c.nodes[n := BecomeLeader(c.nodes[n])], ballots := c.ballots[n := ballot],
      view := Elect(c.view, n));
    var t := c.nodes[n].term;
    assert NodeVoteOk(c, n) && WonOk(c.view, t);
    BallotIsQuorum(c, n, ballot);
    if t in c.view.leader {
      SameWinner(c.view, t, n, c.view.leader[t]);
    }
    VotersStay(c.view, c'.view, t, n);
    VoteLocalKeeps(c, c', n);
  }

  lemma CountedKeepsVotes(c: Cluster, n: NodeId, ballot: set<NodeId>)
    requires VoteInv(c) && n in c.nodes && ballot <= Voters(c.view, c.nodes[n].term, n)
    ensures VoteKept(c, c.(ballots := c.ballots[n := ballot]))
  {
    hide Quorum;
    var c' := c.(ballots := c.ballots[n := ballot]);
    assert NodeVoteOk(c, n);
    VoteLocalKeeps(c, c', n);
  }

  lemma VoteReplyKeepsVotes(c: Cluster, n: NodeId, reply: VoteReply)
    requires VoteInv(c) && Possible(c, CountVote(n, reply))
    ensures VoteKept(c, AfterVoteReply(c, n, reply))
  {
    hide Quorum, BecomeLeader;
    var s := c.nodes[n];
    if s.role != Candidate || s.term != reply.req.term {
    } else if reply.resp.term > s.term {
      StepDownKeepsVotes(c, n, reply.resp.term, None);
    } else {
      assert NodeVoteOk(c, n) && GrantOk(c.view, reply);
      var ballot := c.ballots[n] + if reply.resp.voteGranted then {reply.peer} else {};
      if |ballot| >= Needed(c) {
        ElectedKeepsVotes(c, n, ballot);
      } else {
        CountedKeepsVotes(c, n, ballot);
      }
    }
  }

  lemma AppendNowIsVoteFree(c: Cluster, n: NodeId, m: AppendMsg)
    requires n in c.nodes && n in c.view.term && m.req.term <= c.nodes[n].term
    ensures VoteFree(c, AfterAppendRequest(c, n, m), n)
  {
    hide Matches, Spliced, Min;
  }

  lemma AppendRequestKeepsVotes(c: Cluster, n: NodeId, m: AppendMsg)
    requires VoteInv(c) && n in c.nodes && n in c.view.term
    ensures VoteKept(c, AfterAppendRequest(c, n, m))
  {
    hide VoteInv, VoteFree, Matches, Spliced, Min;
    if m.req.term > c.nodes[n].term {
      var leader := Some(m.req.leaderId);
      var d := SetNode(c, n, BecomeFollower(c.nodes[n], m.req.term, leader)).(view := Bump(c.view, n, m.req.term));
      StepDownKeepsVotes(c, n, m.req.term, leader);
      assert AfterAppendRequest(c, n, m) == AfterAppendRequest(d, n, m);
      AppendNowIsVoteFree(d, n, m);
      VoteFreeKeeps(d, AfterAppendRequest(d, n, m), n);
      VoteKeptTwice(c, d, AfterAppendRequest(d, n, m));
    } else {
      AppendNowIsVoteFree(c, n, m);
      VoteFreeKeeps(c, AfterAppendRequest(c, n, m), n);
    }
  }

  lemma AckKeepsVotes(c: Cluster, n: NodeId, reply: AppendReply)
    requires VoteInv(c) && Possible(c, CountAck(n, reply))
    ensures VoteKept(c, AfterAck(c, n, reply))
  {
    hide VoteInv;
    if c.nodes[n].role == Leader && reply.resp.term > c.nodes[n].term {
      var d := StepDown(c, n, reply.resp.term);
      StepDownKeepsVotes(c, n, reply.resp.term, None);
      VoteFreeKeeps(d, AfterAck(c, n, reply), n);
      VoteKeptTwice(c, d, AfterAck(c, n, reply));
    } else {
      VoteFreeKeeps(c, AfterAck(c, n, reply), n);
    }
  }

  lemma LostVoteKeepsVotes(c: Cluster, n: NodeId, req: RequestVoteReq)
    requires VoteInv(c) && Possible(c, LoseVote(n, req))
    ensures VoteKept(c, Next(c, LoseVote(n, req)))
  {
    hide Voters, Quorum;
    var c' := Next(c, LoseVote(n, req));
    assert NodeVoteOk(c, n);
    VoteLocalKeeps(c, c', n);
  }

  lemma HeartbeatReplyKeepsVotes(c: Cluster, n: NodeId, reply: AppendReply, majority: nat)
    requires VoteInv(c) && n in c.nodes
    ensures VoteKept(c, AfterHeartbeatReply(c, n, reply, majority))
  {
    hide VoteInv;
    if reply.resp.term > c.nodes[n].term {
      StepDownKeepsVotes(c, n, reply.resp.term, None);
    } else {
      VoteFreeKeeps(c, AfterHeartbeatReply(c, n, reply, majority), n);
    }
  }

  /** Everything the code can do keeps the invariant. */
  lemma AnyStepKeepsVotes(c: Cluster, step: Step)
    requires VoteInv(c) && Possible(c, step)
    ensures VoteKept(c, Next(c, step))
  {
    hide VoteInv, VoteFree, AfterVoteRequest, AfterVoteReply, AfterAppendRequest, AfterHeartbeatReply, AfterAck,
      StepDown, BuildAppendEntries, ClosingRequest, ProposalRequest, IsMajorityIndex;
    match step
    case StandForElection(n) => StandKeepsVotes(c, n);
    case DeliverVote(n, req) => VoteRequestKeepsVotes(c, n, req);
    case LoseVote(n, req) => LostVoteKeepsVotes(c, n, req);
    case CountVote(n, reply) => VoteReplyKeepsVotes(c, n, reply);
    case DeliverAppend(n, m) => AppendRequestKeepsVotes(c, n, m);
    case HandleHeartbeatReply(n, reply, majority) => HeartbeatReplyKeepsVotes(c, n, reply, majority);
    case HandleClosingReply(n, reply) => ClosingReplyKeepsVotes(c, n, reply);
    case CountAck(n, reply) => AckKeepsVotes(c, n, reply);
    case _ =>
      LogStepIsVoteFree(c, step);
      VoteFreeKeeps(c, Next(c, step), step.n);
  }

  lemma LogStepIsVoteFree(c: Cluster, step: Step)
    requires Possible(c, step)
    requires step.SendHeartbeat? || step.SendClosing? || step.LoseAppend? || step.PushEntry? || step.SendEntry?
             || step.AbandonProposal? || step.ApplyEntry?
    ensures VoteFree(c, Next(c, step), step.n)
  {
    hide BuildAppendEntries, ClosingRequest, ProposalRequest, Apply;
  }

  lemma ClosingReplyKeepsVotes(c: Cluster, n: NodeId, reply: AppendReply)
    requires VoteInv(c) && Possible(c, HandleClosingReply(n, reply))
    ensures VoteKept(c, Next(c, HandleClosingReply(n, reply)))
  {
    hide VoteInv;
    if reply.resp.term > c.nodes[n].term {
      StepDownKeepsVotes(c, n, reply.resp.term, None);
    } else {
      VoteFreeKeeps(c, c, n);
    }
  }

  // ---- Runs ----

  lemma InitVotes(c: Cluster)
    requires Init(c)
    ensures VoteInv(c)
  {
    forall n ensures NodeVoteOk(c, n) {
      if n in c.nodes {
        assert c.nodes[n] == InitialNode(n, c.nodes[n].peers);
      }
    }
  }

  lemma AnyRunStep(b: seq<Cluster>, i: nat)
    requires AnyRun(b) && i + 1 < |b| && VoteInv(b[i])
    ensures VoteKept(b[i], b[i + 1])
  {
    hide VoteInv, Init, Next;
    assert AnyStepAt(b, i);
    var step :| Possible(b[i], step) && b[i + 1] == Next(b[i], step);
    AnyStepKeepsVotes(b[i], step);
  }

  lemma {:induction false} AnyRunVotes(b: seq<Cluster>, i: nat, j: nat)
    requires AnyRun(b) && i <= j < |b|
    ensures VoteInv(b[i]) && VoteInv(b[j]) && VotesStay(b[i].view, b[j].view)
    decreases j
  {
    hide VoteInv;
    if j == 0 {
      InitVotes(b[0]);
    } else if i < j {
      AnyRunVotes(b, i, j - 1);
      AnyRunStep(b, j - 1);
    } else {
      AnyRunVotes(b, j - 1, j - 1);
      AnyRunStep(b, j - 1);
    }
  }

  lemma LeaderIsRecorded(c: Cluster, n: NodeId)
    requires VoteInv(c) && n in c.nodes && c.nodes[n].role == Leader
    ensures Leads(c.view, n, c.nodes[n].term)
  {
    assert NodeVoteOk(c, n);
  }

  /** Election Safety: at most one node is ever leader in a term, for any cluster size and in every run
      of everything the code can do. */
  lemma ElectionSafety(b: seq<Cluster>, i: nat, j: nat, n: NodeId, m: NodeId, t: nat)
    requires AnyRun(b) && LeaderAt(b, i, n, t) && LeaderAt(b, j, m, t)
    ensures n == m
  {
    hide VoteInv, AnyRun;
    AnyRunVotes(b, if i <= j then i else j, if i <= j then j else i);
    LeaderIsRecorded(b[i], n);
    LeaderIsRecorded(b[j], m);
  }
}
