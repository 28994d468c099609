/** Why the model leaves out three kinds of step: for each, a run of what the code can do that breaks a
    promise.  The runs are built from the same steps as all others.  They keep to the order of the code's
    threads: votes and acknowledgements are asked for in the order of the peer list, and a heartbeat reply
    is handled before the next heartbeat is built.  A peer that is passed over is unreachable at the time,
    which changes no node. */
module RaftFailures {
  import opened KvOps
  import opened RaftTypes
  import opened RaftCore
  import opened RaftCluster

  // ---- Reachable states ----

  ghost predicate Reached(c: Cluster) {
    exists b :: AnyRun(b) && b[|b| - 1] == c
  }

  ghost predicate Known(c: Cluster) {
    c.nodes.Keys <= c.view.term.Keys && c.nodes.Keys <= c.view.log.Keys
  }

  /** Requests, replies and acknowledgements stay. */
  ghost predicate Grown(c: Cluster, c': Cluster) {
    && c.voteReqs <= c'.voteReqs && c.voteReplies <= c'.voteReplies && c.msgs <= c'.msgs && c.replies <= c'.replies
    && c.pushed <= c'.pushed && c.acknowledged <= c'.acknowledged && c'.nodes.Keys == c.nodes.Keys
  }

  lemma NextReached(c: Cluster, step: Step)
    requires Reached(c) && Possible(c, step)
    ensures Reached(Next(c, step))
  {
    hide Possible, Next, Init;
    var b :| AnyRun(b) && b[|b| - 1] == c;
    var longer := b + [Next(c, step)];
    forall i ensures AnyStepAt(longer, i) {
      assert AnyStepAt(b, i);
      if 0 <= i < |b| - 1 {
        assert longer[i] == b[i] && longer[i + 1] == b[i + 1];
      } else if i == |b| - 1 {
        assert Possible(longer[i], step) && longer[i + 1] == Next(longer[i], step);
      }
    }
    assert AnyRun(longer);
  }

  ghost predicate Going(c: Cluster) {
    Reached(c) && Known(c)
  }

  lemma Start(c: Cluster)
    requires Init(c)
    ensures Going(c)
  {
    assert AnyRun([c]);
  }

  lemma GrownTwice(c: Cluster, d: Cluster, e: Cluster)
    requires Grown(c, d) && Grown(d, e)
    ensures Grown(c, e)
  {
  }

  // ---- What single steps do to the nodes ----

  lemma DoStand(c: Cluster, n: NodeId) returns (d: Cluster)
    requires Going(c) && n in c.nodes && c.nodes[n].role != Leader
    ensures Going(d) && Grown(c, d) && d.nodes == c.nodes[n := BecomeCandidate(c.nodes[n])]
    ensures VoteRequest(d.nodes[n]) in d.voteReqs && d.ballots == c.ballots[n := {n}] && d.open == c.open
  {
    hide Reached, BecomeCandidate, VoteRequest;
    NextReached(c, StandForElection(n));
    d := Next(c, StandForElection(n));
  }

  lemma KnownAfterVote(c: Cluster, x: NodeId, req: RequestVoteReq)
    requires Known(c) && x in c.nodes
    ensures x in c.view.term && x in c.view.log && Known(AfterVoteRequest(c, x, req))
  {
    hide OnRequestVote;
  }

  lemma DoVote(c: Cluster, x: NodeId, req: RequestVoteReq) returns (d: Cluster)
    requires Going(c) && x in c.nodes && req in c.voteReqs && x != req.candidateId
    ensures Going(d) && Grown(c, d) && d.nodes == c.nodes[x := OnRequestVote(c.nodes[x], req).0]
    ensures VoteReply(x, req, OnRequestVote(c.nodes[x], req).1) in d.voteReplies && d.ballots == c.ballots
            && d.open == c.open
  {
    hide Reached, OnRequestVote, Known, Bump, Vote;
    KnownAfterVote(c, x, req);
    NextReached(c, DeliverVote(x, req));
    d := Next(c, DeliverVote(x, req));
  }

  /** A granted vote is counted; `ballot` is what the candidate has so far. */
  lemma DoCount(c: Cluster, n: NodeId, reply: VoteReply, ballot: set<NodeId>) returns (d: Cluster)
    requires Going(c) && n in c.nodes && reply in c.voteReplies && reply.req.candidateId == n && reply.resp.voteGranted
    requires c.nodes[n].role == Candidate && c.nodes[n].term == reply.req.term == reply.resp.term
    requires n in c.ballots && c.ballots[n] == ballot
    ensures var all := ballot + {reply.peer};
            && Going(d) && Grown(c, d) && d.ballots == c.ballots[n := all] && d.open == c.open
            && d.nodes == if |all| >= |c.nodes| / 2 + 1 then c.nodes[n := BecomeLeader(c.nodes[n])] else c.nodes
  {
    hide Reached, BecomeLeader;
    NextReached(c, CountVote(n, reply));
    d := Next(c, CountVote(n, reply));
  }

  /** A refused vote changes nothing. */
  lemma DoCountRefusal(c: Cluster, n: NodeId, reply: VoteReply) returns (d: Cluster)
    requires Going(c) && n in c.nodes && reply in c.voteReplies && reply.req.candidateId == n && !reply.resp.voteGranted
    requires c.nodes[n].role == Candidate && c.nodes[n].term == reply.req.term == reply.resp.term
    requires n in c.ballots && c.ballots[n] == {n} && |c.nodes| == 3
    ensures Going(d) && Grown(c, d) && d.ballots == c.ballots && d.open == c.open && d.nodes == c.nodes
  {
    hide Reached, BecomeLeader;
    NextReached(c, CountVote(n, reply));
    d := Next(c, CountVote(n, reply));
    assert {n} + {} == {n};
  }

  lemma DoPush(c: Cluster, n: NodeId, op: Op) returns (d: Cluster)
    requires Going(c) && n in c.nodes && c.nodes[n].role == Leader
    ensures var s := c.nodes[n];
            && Going(d) && Grown(c, d) && d.nodes == c.nodes[n := s.(log := s.log + [Entry(s.term, op)])]
            && Pushed(n, Entry(s.term, op)) in d.pushed && d.open == c.open
  {
    hide Reached;
    NextReached(c, PushEntry(n, op));
    d := Next(c, PushEntry(n, op));
  }

  lemma DoSend(c: Cluster, n: NodeId, e: Entry) returns (d: Cluster)
    requires Going(c) && n in c.nodes && Pushed(n, e) in c.pushed
    ensures var req := ProposalRequest(c.nodes[n], e);
            && Going(d) && Grown(c, d) && d.nodes == c.nodes
            && AppendMsg(Proposal, req) in d.msgs && req in d.open && d.open[req] == {n}
  {
    hide Reached, ProposalRequest;
    NextReached(c, SendEntry(n, e));
    d := Next(c, SendEntry(n, e));
  }

  lemma DoBeat(c: Cluster, n: NodeId, peer: NodeId) returns (d: Cluster)
    requires Going(c) && n in c.nodes && c.nodes[n].role == Leader && peer in c.nodes[n].peers
    ensures Going(d) && Grown(c, d) && d.nodes == c.nodes && d.open == c.open
    ensures AppendMsg(Heartbeat, BuildAppendEntries(c.nodes[n], peer)) in d.msgs
  {
    hide Reached, BuildAppendEntries;
    NextReached(c, SendHeartbeat(n, peer));
    d := Next(c, SendHeartbeat(n, peer));
  }

  lemma KnownAfterAppend(c: Cluster, x: NodeId, m: AppendMsg)
    requires Known(c) && x in c.nodes
    ensures x in c.view.term && x in c.view.log && Known(AfterAppendRequest(c, x, m))
  {
    hide OnAppendEntries;
  }

  lemma DoAppend(c: Cluster, x: NodeId, m: AppendMsg) returns (d: Cluster)
    requires Going(c) && x in c.nodes && m in c.msgs && x != m.req.leaderId
    ensures Going(d) && Grown(c, d) && d.nodes == c.nodes[x := OnAppendEntries(c.nodes[x], m.req).0] && d.open == c.open
    ensures AppendReply(x, m, OnAppendEntries(c.nodes[x], m.req).1) in d.replies
  {
    hide Reached, OnAppendEntries, Known, Bump, Accept;
    KnownAfterAppend(c, x, m);
    NextReached(c, DeliverAppend(x, m));
    d := Next(c, DeliverAppend(x, m));
  }

  /** The acknowledgement that completes a majority. */
  lemma DoAck(c: Cluster, n: NodeId, reply: AppendReply) returns (d: Cluster)
    requires Going(c) && n in c.nodes && c.nodes[n].role == Leader && reply in c.replies && reply.msg.kind == Proposal
    requires var req := reply.msg.req;
             && req.leaderId == n && req in c.open && |c.open[req] + {reply.peer}| >= |c.nodes| / 2 + 1
               && req.entries != []
             && reply.resp.success && reply.resp.term <= c.nodes[n].term
    ensures var req := reply.msg.req;
            && Going(d) && Grown(c, d) && d.nodes == c.nodes
            && Acknowledged(req.term, req.prevLogIndex + 1, req.entries[0]) in d.acknowledged
  {
    hide Reached;
    NextReached(c, CountAck(n, reply));
    d := Next(c, CountAck(n, reply));
  }

  lemma DoReply(c: Cluster, n: NodeId, reply: AppendReply, k: nat) returns (d: Cluster)
    requires Going(c) && n in c.nodes && reply in c.replies && reply.msg.kind == Heartbeat
             && reply.msg.req.leaderId == n
    requires reply.resp.term <= c.nodes[n].term && reply.resp.success
    requires IsMajorityIndex(RecordMatch(c.nodes[n], reply.peer, reply.msg.req), k)
    ensures Going(d) && Grown(c, d)
    ensures d.nodes == c.nodes[n := AdvanceCommit(RecordMatch(c.nodes[n], reply.peer, reply.msg.req), k)]
  {
    hide Reached, IsMajorityIndex, RecordMatch, AdvanceCommit;
    NextReached(c, HandleHeartbeatReply(n, reply, k));
    d := Next(c, HandleHeartbeatReply(n, reply, k));
  }

  // ---- Elections ----

  /** The vote request `n` sends when it stands next. */
  function Standing(s: NodeState): RequestVoteReq {
    VoteRequest(BecomeCandidate(s))
  }

  function Voter(s: NodeState, req: RequestVoteReq): NodeState {
    OnRequestVote(s, req).0
  }

  predicate WouldVote(s: NodeState, req: RequestVoteReq) {
    OnRequestVote(s, req).1.voteGranted
  }

  lemma GrantedTerm(s: NodeState, req: RequestVoteReq)
    requires WouldVote(s, req)
    ensures OnRequestVote(s, req).1 == RequestVoteResp(req.term, true) || s.term > req.term
    ensures s.term <= req.term
  {
  }

  function Winner(s: NodeState): NodeState {
    BecomeLeader(BecomeCandidate(s))
  }

  /** Node `n` of three wins with the vote of `x`. */
  lemma WinOfThree(c: Cluster, n: NodeId, x: NodeId) returns (d: Cluster)
    requires Going(c) && n in c.nodes && x in c.nodes && x != n && |c.nodes| == 3
    requires c.nodes[n].role != Leader && c.nodes[n].id == n && WouldVote(c.nodes[x], Standing(c.nodes[n]))
    ensures Going(d) && Grown(c, d) && d.open == c.open
    ensures d.nodes == c.nodes[n := Winner(c.nodes[n])][x := Voter(c.nodes[x], Standing(c.nodes[n]))]
  {
    hide Going, Grown, OnRequestVote, BecomeLeader;
    var req := Standing(c.nodes[n]);
    GrantedTerm(c.nodes[x], req);
    var c1 := DoStand(c, n);
    var c2 := DoVote(c1, x, req);
    GrownTwice(c, c1, c2);
    d := DoCount(c2, n, VoteReply(x, req, OnRequestVote(c.nodes[x], req).1), {n});
    GrownTwice(c, c2, d);
  }

  /** Node `n` of three asks `y`, which refuses, and wins with the vote of `x`. */
  lemma WinDespite(c: Cluster, n: NodeId, y: NodeId, x: NodeId) returns (d: Cluster)
    requires Going(c) && n in c.nodes && x in c.nodes && y in c.nodes && x != n && y != n && x != y && |c.nodes| == 3
    requires c.nodes[n].role != Leader && c.nodes[n].id == n
    requires var req := Standing(c.nodes[n]);
             && WouldVote(c.nodes[x], req) && !WouldVote(c.nodes[y], req) && c.nodes[y].term < req.term
    ensures var req := Standing(c.nodes[n]);
            && Going(d) && Grown(c, d) && d.open == c.open
            && d.nodes == c.nodes[n := Winner(c.nodes[n])][y := Voter(c.nodes[y], req)][x := Voter(c.nodes[x], req)]
  {
    hide Going, Grown, OnRequestVote, BecomeLeader;
    var req := Standing(c.nodes[n]);
    GrantedTerm(c.nodes[x], req);
    RefusedTerm(c.nodes[y], req);
    var c1 := DoStand(c, n);
    var c2 := DoVote(c1, y, req);
    var c3 := DoCountRefusal(c2, n, VoteReply(y, req, OnRequestVote(c.nodes[y], req).1));
    StillAsked(c1, c2, c3, req);
    var c4 := DoVote(c3, x, req);
    d := DoCount(c4, n, VoteReply(x, req, OnRequestVote(c.nodes[x], req).1), {n});
    GrownTwice(c, c1, c2);
    GrownTwice(c, c2, c3);
    GrownTwice(c, c3, c4);
    GrownTwice(c, c4, d);
  }

  lemma RefusedTerm(s: NodeState, req: RequestVoteReq)
    requires !WouldVote(s, req) && s.term < req.term
    ensures OnRequestVote(s, req).1 == RequestVoteResp(req.term, false)
  {
  }

  lemma StillAsked(c: Cluster, d: Cluster, e: Cluster, req: RequestVoteReq)
    requires Grown(c, d) && Grown(d, e) && req in c.voteReqs
    ensures req in e.voteReqs
  {
  }

  // ---- Proposals ----

  function WithEntry(s: NodeState, op: Op): NodeState {
    s.(log := s.log + [Entry(s.term, op)])
  }

  function RequestFor(s: NodeState, op: Op): AppendEntriesReq {
    ProposalRequest(WithEntry(s, op), Entry(s.term, op))
  }

  /** The leader `n` of three proposes, and `x` accepts: the proposal is acknowledged. */
  lemma ProposeOfThree(c: Cluster, n: NodeId, x: NodeId, op: Op) returns (d: Cluster)
    requires Going(c) && n in c.nodes && x in c.nodes && x != n && |c.nodes| == 3
    requires c.nodes[n].role == Leader && c.nodes[n].id == n
    requires OnAppendEntries(c.nodes[x], RequestFor(c.nodes[n], op)).1 == AppendEntriesResp(c.nodes[n].term, true)
    ensures var s := c.nodes[n];
            && Going(d) && Grown(c, d)
            && d.nodes == c.nodes[n := WithEntry(s, op)][x := OnAppendEntries(c.nodes[x], RequestFor(s, op)).0]
            && Acknowledged(s.term, |s.log| + 1, Entry(s.term, op)) in d.acknowledged
  {
    hide Going, Grown, OnAppendEntries;
    var s, req := c.nodes[n], RequestFor(c.nodes[n], op);
    var c1 := DoPush(c, n, op);
    var c2 := DoSend(c1, n, Entry(s.term, op));
    var c3 := DoAppend(c2, x, AppendMsg(Proposal, req));
    d := DoAck(c3, n, AppendReply(x, AppendMsg(Proposal, req), OnAppendEntries(c.nodes[x], req).1));
    GrownTwice(c, c1, c2);
    GrownTwice(c, c2, c3);
    GrownTwice(c, c3, d);
  }

  // ---- Three nodes ----

  const ONE: NodeState := InitialNode(1, [2, 3])
  const TWO: NodeState := InitialNode(2, [1, 3])
  const THREE: NodeState := InitialNode(3, [1, 2])

  ghost predicate Trio(c: Cluster, one: NodeState, two: NodeState, three: NodeState) {
    c.nodes == map[1 := one, 2 := two, 3 := three]
  }

  lemma TrioSize(c: Cluster, one: NodeState, two: NodeState, three: NodeState)
    requires Trio(c, one, two, three)
    ensures |c.nodes| == 3
  {
    assert c.nodes.Keys == {1, 2, 3} && |c.nodes| == |c.nodes.Keys|;
  }

  lemma ThreeNodes() returns (c: Cluster)
    ensures Going(c) && Trio(c, ONE, TWO, THREE)
  {
    var nodes := map[1 := ONE, 2 := TWO, 3 := THREE];
    c := Cluster(nodes, map[], {}, {}, {}, {}, {}, map[], {}, Initial(nodes.Keys));
    var all := {1, 2, 3};
    assert nodes.Keys == all && |all| == 3;
    assert (set p | p in [2, 3]) == all - {1};
    assert (set p | p in [1, 3]) == all - {2};
    assert (set p | p in [1, 2]) == all - {3};
    Start(c);
  }

  /** The first leader and its voter. */
  const LEADER: NodeState := Winner(ONE)
  const VOTER: NodeState := Voter(TWO, Standing(ONE))

  lemma FirstLeader()
    ensures LEADER == ONE.(role := Leader, leaderId := Some(1), term := 1, votedFor := Some(1),
                           nextIndex := map[2 := 1, 3 := 1], matchIndex := map[2 := 0, 3 := 0])
    ensures VOTER == TWO.(term := 1, votedFor := Some(1)) && WouldVote(TWO, Standing(ONE))
  {
  }

  lemma OneElected() returns (c: Cluster)
    ensures Going(c) && Trio(c, LEADER, VOTER, THREE)
  {
    hide Going, Grown, Standing, Voter, WouldVote, Winner;
    var c0 := ThreeNodes();
    TrioSize(c0, ONE, TWO, THREE);
    FirstLeader();
    c := WinOfThree(c0, 1, 2);
  }

  /** A promise broken: an acknowledged entry is not in the log of the leader of a later term. */
  ghost predicate LosesAcknowledged(c: Cluster, a: Acknowledged, m: NodeId) {
    && Reached(c) && a in c.acknowledged
    && m in c.nodes && c.nodes[m].role == Leader && c.nodes[m].term > a.term
    && !(1 <= a.index <= |c.nodes[m].log| && c.nodes[m].log[a.index - 1] == a.entry)
  }

  // ---- A request that cuts what its receiver accepted ----

  /** The follower after the two proposals, and after the heartbeat built between them. */
  lemma StaleBeat(op1: Op, op2: Op)
    ensures var one1 := WithEntry(LEADER, op1);
            var one2 := WithEntry(one1, op2);
            var two1 := OnAppendEntries(VOTER, RequestFor(LEADER, op1)).0;
            var two2 := OnAppendEntries(two1, RequestFor(one1, op2)).0;
            var two3 := OnAppendEntries(two2, BuildAppendEntries(one1, 2)).0;
            && OnAppendEntries(VOTER, RequestFor(LEADER, op1)).1 == AppendEntriesResp(1, true)
            && OnAppendEntries(two1, RequestFor(one1, op2)).1 == AppendEntriesResp(1, true)
            && two3 == VOTER.(leaderId := Some(1), log := [Entry(1, op1)])
            && one2.log == [Entry(1, op1), Entry(1, op2)]
            && BuildAppendEntries(one1, 2).leaderId == 1
  {
    hide Standing, Voter, Winner, WouldVote;
    FirstLeader();
  }

  lemma SecondLeader(op1: Op)
    ensures var two := VOTER.(leaderId := Some(1), log := [Entry(1, op1)]);
            && WouldVote(THREE, Standing(two)) && Winner(two).role == Leader
            && Winner(two).term == 2 && Winner(two).log == [Entry(1, op1)]
  {
    FirstLeader();
  }

  /** Nodes 1 and 2 acknowledge two entries; then a heartbeat that node 1 built between them, with the
      first entry only, reaches node 2 and cuts the second.  With the vote of node 3 node 2 leads on. */
  lemma StaleRequestLosesAcknowledged(op1: Op, op2: Op) returns (c: Cluster, a: Acknowledged, m: NodeId)
    ensures LosesAcknowledged(c, a, m)
  {
    hide Grown, Reached, Known, Standing, Voter, WouldVote, Winner, OnAppendEntries, RequestFor, BuildAppendEntries;
    FirstLeader();
    StaleBeat(op1, op2);
    SecondLeader(op1);
    var c1 := OneElected();
    TrioSize(c1, LEADER, VOTER, THREE);
    var c2 := ProposeOfThree(c1, 1, 2, op1);
    var c3 := DoBeat(c2, 1, 2);
    var c4 := ProposeOfThree(c3, 1, 2, op2);
    var beat := AppendMsg(Heartbeat, BuildAppendEntries(c2.nodes[1], 2));
    StillThere(c3, c4, beat);
    var c5 := DoAppend(c4, 2, beat);
    c := WinOfThree(c5, 2, 3);
    a, m := Acknowledged(1, 2, Entry(1, op2)), 2;
    StillAcknowledged(c4, c5, c, a);
  }

  lemma StillThere(c: Cluster, d: Cluster, m: AppendMsg)
    requires Grown(c, d) && m in c.msgs
    ensures m in d.msgs
  {
  }

  lemma StillAcknowledged(c: Cluster, d: Cluster, e: Cluster, a: Acknowledged)
    requires Grown(c, d) && Grown(d, e) && a in c.acknowledged
    ensures a in e.acknowledged
  {
  }

  // ---- A header that does not belong to its entry ----

  /** Node 1, with its entry, and node 3 hear of the election of node 2. */
  lemma NextTerm(op1: Op)
    ensures var one1, req := WithEntry(LEADER, op1), Standing(VOTER);
            && !WouldVote(one1, req) && one1.term < req.term && WouldVote(THREE, req)
            && Voter(THREE, req) == THREE.(term := 2, votedFor := Some(2))
            && Winner(VOTER).role == Leader && Winner(VOTER).id == 2
            && Winner(VOTER).term == 2 && Winner(VOTER).log == [] && Winner(VOTER).votedFor == Some(2)
    ensures var one := Voter(WithEntry(LEADER, op1), Standing(VOTER));
            one.role == Follower && one.log == [Entry(1, op1)] && one.id == 1 && one.term == 2
  {
    FirstLeader();
  }

  lemma LateHeader(op1: Op, op2: Op)
    ensures var two, three := Winner(VOTER), Voter(THREE, Standing(VOTER));
            && OnAppendEntries(three, RequestFor(two, op2)).1 == AppendEntriesResp(2, true)
            && WithEntry(two, op2).log == [Entry(2, op2)]
  {
    hide Winner, Voter, WouldVote, Standing;
    NextTerm(op1);
  }

  lemma LateHeaderCuts(one: NodeState, two: NodeState, op1: Op, op2: Op)
    requires one.role == Follower && one.log == [Entry(1, op1)] && one.id == 1 && one.term == 2
    requires two.term == 2 && two.log == [Entry(2, op2)] && two.id == 2
    ensures var req := ProposalRequest(one, Entry(1, op1));
            && req.leaderId == 1
            && WouldVote(OnAppendEntries(two, req).0, Standing(one))
            && Winner(one).role == Leader && Winner(one).term == 3 && Winner(one).log == [Entry(1, op1)]
  {
  }

  /** Node 1 appends an entry and, before it reads the header, is voted out: node 2 asks it for its vote,
      leads the next term with node 3, and has an entry acknowledged at the same index.  Node 1 then sends
      its old entry under the new term to its first peer, which is node 2; that node takes it for its
      leader's, drops the acknowledged entry and later votes for node 1. */
  lemma LateHeaderLosesAcknowledged(op1: Op, op2: Op) returns (c: Cluster, a: Acknowledged, m: NodeId)
    ensures LosesAcknowledged(c, a, m)
  {
    hide Grown, Reached, Known, Standing, Voter, WouldVote, Winner, OnAppendEntries, RequestFor, ProposalRequest,
      OnRequestVote;
    FirstLeader();
    NextTerm(op1);
    LateHeader(op1, op2);
    var c1 := OneElected();
    var c2 := DoPush(c1, 1, op1);
    TrioSize(c2, WithEntry(LEADER, op1), VOTER, THREE);
    var c3 := WinDespite(c2, 2, 1, 3);
    var c4 := ProposeOfThree(c3, 2, 3, op2);
    StillPushed(c2, c3, c4, Pushed(1, Entry(1, op1)));
    LateHeaderCuts(c4.nodes[1], c4.nodes[2], op1, op2);
    var c5 := DoSend(c4, 1, Entry(1, op1));
    var c6 := DoAppend(c5, 2, AppendMsg(Proposal, ProposalRequest(c4.nodes[1], Entry(1, op1))));
    c := WinOfThree(c6, 1, 2);
    a, m := Acknowledged(2, 1, Entry(2, op2)), 1;
    GrownTwice(c5, c6, c);
    StillAcknowledged(c4, c5, c, a);
  }

  lemma StillPushed(c: Cluster, d: Cluster, e: Cluster, p: Pushed)
    requires Grown(c, d) && Grown(d, e) && p in c.pushed
    ensures p in e.pushed
  {
  }

  // ---- A heartbeat reply handled in a later term ----

  /** Another promise broken: what a node counts as committed is not in the log of a later leader. */
  ghost predicate LosesCommitted(c: Cluster, n: NodeId, m: NodeId) {
    && Reached(c) && n in c.nodes && m in c.nodes && c.nodes[n].commit <= |c.nodes[n].log|
    && c.nodes[m].role == Leader && c.nodes[m].term > c.nodes[n].term
    && !(c.nodes[n].log[..c.nodes[n].commit] <= c.nodes[m].log)
  }

  /** Node `n` of five wins with the votes of `x` and `y`. */
  lemma WinOfFive(c: Cluster, n: NodeId, x: NodeId, y: NodeId) returns (d: Cluster)
    requires Going(c) && n in c.nodes && x in c.nodes && y in c.nodes && x != n && y != n && x != y && |c.nodes| == 5
    requires c.nodes[n].role != Leader && c.nodes[n].id == n
    requires WouldVote(c.nodes[x], Standing(c.nodes[n])) && WouldVote(c.nodes[y], Standing(c.nodes[n]))
    ensures var req := Standing(c.nodes[n]);
            && Going(d) && Grown(c, d)
            && d.nodes == c.nodes[n := Winner(c.nodes[n])][x := Voter(c.nodes[x], req)][y := Voter(c.nodes[y], req)]
  {
    hide Going, Grown, OnRequestVote, BecomeLeader;
    var req := Standing(c.nodes[n]);
    GrantedTerm(c.nodes[x], req);
    GrantedTerm(c.nodes[y], req);
    var c1 := DoStand(c, n);
    var c2 := DoVote(c1, x, req);
    var c3 := DoCount(c2, n, VoteReply(x, req, OnRequestVote(c.nodes[x], req).1), {n});
    StillAsked(c1, c2, c3, req);
    var c4 := DoVote(c3, y, req);
    d := DoCount(c4, n, VoteReply(y, req, OnRequestVote(c.nodes[y], req).1), {n, x});
    GrownTwice(c, c1, c2);
    GrownTwice(c, c2, c3);
    GrownTwice(c, c3, c4);
    GrownTwice(c, c4, d);
  }

  lemma StillReplied(c: Cluster, d: Cluster, r: AppendReply)
    requires Grown(c, d) && r in c.replies
    ensures r in d.replies
  {
  }

  /** A heartbeat from `n` to `x`, sent and delivered. */
  lemma BeatAndAppend(c: Cluster, n: NodeId, x: NodeId) returns (d: Cluster)
    requires Going(c) && n in c.nodes && c.nodes[n].role == Leader && x in c.nodes[n].peers && x in c.nodes
             && x != c.nodes[n].id
    ensures var req := BuildAppendEntries(c.nodes[n], x);
            && Going(d) && Grown(c, d) && d.nodes == c.nodes[x := OnAppendEntries(c.nodes[x], req).0]
            && AppendReply(x, AppendMsg(Heartbeat, req), OnAppendEntries(c.nodes[x], req).1) in d.replies
  {
    hide Going, Grown, OnAppendEntries;
    var c1 := DoBeat(c, n, x);
    d := DoAppend(c1, x, AppendMsg(Heartbeat, BuildAppendEntries(c.nodes[n], x)));
    GrownTwice(c, c1, d);
  }

  ghost predicate Five(c: Cluster, a: NodeState, b: NodeState, d: NodeState, e: NodeState, f: NodeState) {
    && c.nodes.Keys == {1, 2, 3, 4, 5}
    && c.nodes[1] == a && c.nodes[2] == b && c.nodes[3] == d && c.nodes[4] == e && c.nodes[5] == f
  }

  lemma FiveSize(c: Cluster, a: NodeState, b: NodeState, d: NodeState, e: NodeState, f: NodeState)
    requires Five(c, a, b, d, e, f)
    ensures |c.nodes| == 5
  {
    assert |c.nodes| == |c.nodes.Keys|;
  }

  function Peers(n: NodeId): seq<NodeId> {
    if n == 1 then [2, 3, 4, 5] else if n == 2 then [1, 3, 4, 5] else if n == 3 then [1, 2, 4, 5]
    else if n == 4 then [1, 2, 3, 5] else [1, 2, 3, 4]
  }

  function Fresh(n: NodeId): NodeState {
    InitialNode(n, Peers(n))
  }

  lemma PeersOfFive(n: NodeId)
    requires 1 <= n <= 5
    ensures PeersOf({1, 2, 3, 4, 5}, n, Peers(n))
  {
    var all := {1, 2, 3, 4, 5};
    assert |all| == 5;
    assert (set p | p in Peers(n)) == all - {n};
  }

  lemma FiveNodes() returns (c: Cluster)
    ensures Going(c) && Five(c, Fresh(1), Fresh(2), Fresh(3), Fresh(4), Fresh(5))
  {
    hide PeersOf, Peers;
    var nodes := map[1 := Fresh(1), 2 := Fresh(2), 3 := Fresh(3), 4 := Fresh(4), 5 := Fresh(5)];
    c := Cluster(nodes, map[], {}, {}, {}, {}, {}, map[], {}, Initial(nodes.Keys));
    assert nodes.Keys == {1, 2, 3, 4, 5};
    forall n | n in nodes ensures PeersOf(nodes.Keys, n, nodes[n].peers) && nodes[n] == InitialNode(n, nodes[n].peers) {
      PeersOfFive(n);
    }
    Start(c);
  }

  function All(n: NodeId, v: nat): map<NodeId, nat> {
    map p | p in Peers(n) :: v
  }

  /** A node of five in a term, with the one it voted for and the log it has. */
  function Plain(n: NodeId, t: nat, vote: NodeId, log: Log): NodeState {
    Fresh(n).(term := t, votedFor := Some(vote), log := log)
  }

  function Ruler(n: NodeId, t: nat, next: nat, log: Log): NodeState {
    Fresh(n).(role := Leader, leaderId := Some(n), term := t, votedFor := Some(n), log := log,
              nextIndex := All(n, next), matchIndex := All(n, 0))
  }

  lemma FilledAll(n: NodeId, m: map<NodeId, nat>, v: nat)
    requires m.Keys <= All(n, 0).Keys
    ensures Filled(m, Peers(n), v) == All(n, v)
  {
  }

  /** Winning and voting, for nodes in these shapes. */
  lemma Wins(s: NodeState, n: NodeId)
    requires s.id == n && s.peers == Peers(n) && s.commit == 0 && s.lastApplied == 0 && s.store == map[]
    requires s.nextIndex.Keys <= All(n, 0).Keys && s.matchIndex.Keys <= All(n, 0).Keys
    ensures Winner(s) == Ruler(n, s.term + 1, |s.log| + 1, s.log)
    ensures Standing(s) == RequestVoteReq(s.term + 1, n, |s.log|, LastTerm(s.log))
  {
    hide Filled, All, Peers;
    FilledAll(n, s.nextIndex, |s.log| + 1);
    FilledAll(n, s.matchIndex, 0);
  }

  lemma FreshWins(n: NodeId)
    ensures Winner(Fresh(n)) == Ruler(n, 1, 1, []) && Standing(Fresh(n)) == RequestVoteReq(1, n, 0, 0)
  {
    hide Winner, Standing, All, Peers;
    Wins(Fresh(n), n);
  }

  lemma Votes(n: NodeId, s: NodeState, req: RequestVoteReq)
    requires s == Fresh(n).(term := s.term, votedFor := s.votedFor) && s.term < req.term
    ensures WouldVote(s, req) && Voter(s, req) == Plain(n, req.term, req.candidateId, [])
  {
  }

  /** Node 1 leads term 1 and replicates two entries to node 2; the reply stays on its way. */
  lemma FirstPart(f1: Op, f2: Op) returns (c: Cluster, r: AppendReply)
    ensures var log := [Entry(1, f1), Entry(1, f2)];
            var two := Plain(2, 1, 1, log).(leaderId := Some(1));
            && Going(c) && Five(c, Ruler(1, 1, 1, log), two, Plain(3, 1, 1, []), Fresh(4), Fresh(5))
            && r in c.replies && r.msg.kind == Heartbeat && r.msg.req == AppendEntriesReq(1, 1, 0, 0, log, 0)
            && r.peer == 2 && r.resp == AppendEntriesResp(1, true)
  {
    hide Going, Grown, Standing, Voter, WouldVote, Winner, Fresh, Ruler, Plain, BuildAppendEntries, OnAppendEntries;
    FreshFields();
    var c0 := FiveNodes();
    FiveSize(c0, Fresh(1), Fresh(2), Fresh(3), Fresh(4), Fresh(5));
    FreshWins(1);
    Votes(2, Fresh(2), Standing(Fresh(1)));
    Votes(3, Fresh(3), Standing(Fresh(1)));
    var c1 := WinOfFive(c0, 1, 2, 3);
    var log := [Entry(1, f1), Entry(1, f2)];
    var c3 := PushTwo(c1, f1, f2);
    RulerPushes(1, 1, 1, log, f2);
    FirstBeat(log);
    c := BeatAndAppend(c3, 1, 2);
    var req := BuildAppendEntries(c3.nodes[1], 2);
    r := AppendReply(2, AppendMsg(Heartbeat, req), OnAppendEntries(c3.nodes[2], req).1);
  }

  /** Node 3 leads term 2 without them and overwrites them on node 1. */
  lemma SecondPart(c: Cluster, two: NodeState, log: Log, g: Op) returns (d: Cluster)
    requires Going(c) && Five(c, Ruler(1, 1, 1, log), two, Plain(3, 1, 1, []), Fresh(4), Fresh(5))
    ensures Going(d) && Grown(c, d)
    ensures Five(d, Deposed(g), two, Ruler(3, 2, 1, [Entry(2, g)]), Plain(4, 2, 3, []), Plain(5, 2, 3, []))
  {
    hide Going, Grown, Standing, Voter, WouldVote, Winner, Fresh, Ruler, Plain, BuildAppendEntries, OnAppendEntries,
      Deposed;
    FiveSize(c, Ruler(1, 1, 1, log), two, Plain(3, 1, 1, []), Fresh(4), Fresh(5));
    FreshFields();
    PlainWins(3, 1, 1);
    Votes(4, Fresh(4), Standing(Plain(3, 1, 1, [])));
    Votes(5, Fresh(5), Standing(Plain(3, 1, 1, [])));
    var c1 := WinOfFive(c, 3, 4, 5);
    RulerPushes(3, 2, 1, [], g);
    var c2 := DoPush(c1, 3, g);
    assert [] + [Entry(2, g)] == [Entry(2, g)];
    RulerPushes(3, 2, 1, [Entry(2, g)], g);
    SecondBeat(log, g);
    d := BeatAndAppend(c2, 3, 1);
    GrownTwice(c, c1, c2);
    GrownTwice(c, c2, d);
  }

  lemma PlainWins(n: NodeId, t: nat, vote: NodeId)
    ensures var s := Plain(n, t, vote, []);
            && s.role == Follower && s.id == n
            && Winner(s) == Ruler(n, t + 1, 1, []) && Standing(s) == RequestVoteReq(t + 1, n, 0, 0)
  {
    hide Winner, Standing, All, Peers;
    Wins(Plain(n, t, vote, []), n);
  }

  /** Node 1 as a follower of node 3. */
  function Deposed(g: Op): NodeState {
    Fresh(1).(leaderId := Some(3), term := 2, log := [Entry(2, g)], nextIndex := All(1, 1), matchIndex := All(1, 0))
  }

  lemma SecondBeat(log: Log, g: Op)
    ensures var req := BuildAppendEntries(Ruler(3, 2, 1, [Entry(2, g)]), 1);
            req == AppendEntriesReq(2, 3, 0, 0, [Entry(2, g)], 0)
              && OnAppendEntries(Ruler(1, 1, 1, log), req).0 == Deposed(g)
  {
    assert [Entry(2, g)][0..] == [Entry(2, g)] && log[..0] + [Entry(2, g)] == [Entry(2, g)];
  }

  /** Node 1 leads term 3 and appends after the new entry. */
  lemma ThirdPart(c: Cluster, two: NodeState, g: Op, h: Op) returns (d: Cluster)
    requires Going(c)
    requires Five(c, Deposed(g), two, Ruler(3, 2, 1, [Entry(2, g)]), Plain(4, 2, 3, []), Plain(5, 2, 3, []))
    ensures Going(d) && Grown(c, d)
    ensures Five(d, Ruler(1, 3, 2, [Entry(2, g), Entry(3, h)]), two, Ruler(3, 2, 1, [Entry(2, g)]),
                 Plain(4, 3, 1, []), Plain(5, 3, 1, []))
  {
    hide Going, Grown, Standing, Voter, WouldVote, Winner, Fresh, Ruler, Plain, BuildAppendEntries, OnAppendEntries,
      Deposed;
    FiveSize(c, Deposed(g), two, Ruler(3, 2, 1, [Entry(2, g)]), Plain(4, 2, 3, []), Plain(5, 2, 3, []));
    DeposedWins(g);
    PlainVotes(4, 2, 3, Standing(Deposed(g)));
    PlainVotes(5, 2, 3, Standing(Deposed(g)));
    var c1 := WinOfFive(c, 1, 4, 5);
    RulerPushes(1, 3, 2, [Entry(2, g)], h);
    d := DoPush(c1, 1, h);
    assert [Entry(2, g)] + [Entry(3, h)] == [Entry(2, g), Entry(3, h)];
    GrownTwice(c, c1, d);
  }

  lemma DeposedWins(g: Op)
    ensures Deposed(g).role == Follower && Deposed(g).id == 1
    ensures Winner(Deposed(g)) == Ruler(1, 3, 2, [Entry(2, g)]) && Standing(Deposed(g)) == RequestVoteReq(3, 1, 1, 2)
  {
    hide Winner, Standing, Peers;
    Wins(Deposed(g), 1);
  }

  lemma PlainVotes(n: NodeId, t: nat, vote: NodeId, req: RequestVoteReq)
    requires t < req.term
    ensures WouldVote(Plain(n, t, vote, []), req)
            && Voter(Plain(n, t, vote, []), req) == Plain(n, req.term, req.candidateId, [])
  {
    hide WouldVote, Voter;
    Votes(n, Plain(n, t, vote, []), req);
  }

  // ---- The commit index moves ----

  /** Node 1 in term 3 after it handled the reply of term 1 by which node 2 holds two entries. */
  function Misled(f: Log, g: Op, h: Op): NodeState {
    RecordMatch(Ruler(1, 3, 2, [Entry(2, g), Entry(3, h)]), 2, AppendEntriesReq(1, 1, 0, 0, f, 0))
  }

  lemma MisledFields(f: Log, g: Op, h: Op)
    requires |f| == 2
    ensures var s := Misled(f, g, h);
            && s.matchIndex == map[2 := 2, 3 := 0, 4 := 0, 5 := 0] && s.log == [Entry(2, g), Entry(3, h)]
            && s.role == Leader && s.id == 1 && s.peers == [2, 3, 4, 5] && s.term == 3 && s.commit == 0
            && 3 in s.nextIndex && s.nextIndex[3] == 2
  {
    hide Ruler, Filled;
    RulerMatches(1, 3, 2, [Entry(2, g), Entry(3, h)]);
    RulerPushes(1, 3, 2, [Entry(2, g), Entry(3, h)], h);
  }

  /** The reply itself moves nothing. */
  lemma LateReply(f: Log, g: Op, h: Op)
    requires |f| == 2
    ensures IsMajorityIndex(Misled(f, g, h), 0) && AdvanceCommit(Misled(f, g, h), 0) == Misled(f, g, h)
  {
    hide Misled;
    MisledFields(f, g, h);
    FirstCount(Misled(f, g, h));
  }

  /** The next heartbeat goes to node 3 ... */
  lemma ThirdBeat(f: Log, g: Op, h: Op)
    requires |f| == 2
    ensures var req := BuildAppendEntries(Misled(f, g, h), 3);
            && req == AppendEntriesReq(3, 1, 1, 2, [Entry(3, h)], 0)
            && OnAppendEntries(Ruler(3, 2, 1, [Entry(2, g)]), req).1 == AppendEntriesResp(3, true)
  {
    hide Misled;
    MisledFields(f, g, h);
    assert [Entry(2, g), Entry(3, h)][1..] == [Entry(3, h)];
  }

  /** ... and with its reply two of five nodes look like three. */
  lemma SecondReply(f: Log, g: Op, h: Op)
    requires |f| == 2
    ensures var s := RecordMatch(Misled(f, g, h), 3, AppendEntriesReq(3, 1, 1, 2, [Entry(3, h)], 0));
            && IsMajorityIndex(s, 2) && AdvanceCommit(s, 2) == s.(commit := 2)
            && s.log == [Entry(2, g), Entry(3, h)] && s.term == 3
  {
    hide Misled, IsMajorityIndex, TermAt;
    MisledFields(f, g, h);
    SecondCount(RecordMatch(Misled(f, g, h), 3, AppendEntriesReq(3, 1, 1, 2, [Entry(3, h)], 0)));
    LastIsThree(g, h);
  }

  lemma LastIsThree(g: Op, h: Op)
    ensures TermAt([Entry(2, g), Entry(3, h)], 2) == 3
  {
  }

  lemma RulerMatches(n: NodeId, t: nat, next: nat, log: Log)
    requires n == 1
    ensures Ruler(n, t, next, log).matchIndex == map[2 := 0, 3 := 0, 4 := 0, 5 := 0]
    ensures Ruler(n, t, next, log).nextIndex == map[2 := next, 3 := next, 4 := next, 5 := next]
  {
  }

  lemma FirstCount(s: NodeState)
    requires s.matchIndex == map[2 := 2, 3 := 0, 4 := 0, 5 := 0] && |s.log| == 2
    ensures IsMajorityIndex(s, 0)
  {
    FourKeys(s.matchIndex);
    assert Supporters(s, 0) == {2, 3, 4, 5} && Supporters(s, 1) == {2};
  }

  lemma SecondCount(s: NodeState)
    requires s.matchIndex == map[2 := 2, 3 := 2, 4 := 0, 5 := 0] && |s.log| == 2
    ensures IsMajorityIndex(s, 2)
  {
    FourKeys(s.matchIndex);
    assert Supporters(s, 2) == {2, 3} && Supporters(s, 3) == {};
  }

  lemma FourKeys(m: map<NodeId, nat>)
    requires m.Keys == {2, 3, 4, 5}
    ensures |m| == 4
  {
    assert |m| == |m.Keys|;
  }

  /** Node 2, which never heard of either, leads term 4 with the votes of nodes 4 and 5. */
  lemma LastPart(c: Cluster, f: Log) returns (d: Cluster)
    requires Going(c) && c.nodes.Keys == {1, 2, 3, 4, 5} && c.nodes[2] == Plain(2, 1, 1, f).(leaderId := Some(1))
    requires c.nodes[4] == Plain(4, 3, 1, []) && c.nodes[5] == Plain(5, 3, 1, [])
    ensures Going(d) && d.nodes.Keys == c.nodes.Keys && d.nodes[1] == c.nodes[1]
    ensures d.nodes[2].role == Leader && d.nodes[2].term == 4 && d.nodes[2].log == f
  {
    hide Going, Grown, Standing, Voter, WouldVote, Winner, Plain, BecomeCandidate;
    Patient(f);
    var c1 := DoStand(c, 2);
    var c2 := DoStand(c1, 2);
    assert |c2.nodes| == |c2.nodes.Keys| == 5;
    PlainVotes(4, 3, 1, Standing(c2.nodes[2]));
    PlainVotes(5, 3, 1, Standing(c2.nodes[2]));
    d := WinOfFive(c2, 2, 4, 5);
  }

  lemma Patient(f: Log)
    ensures var s := Plain(2, 1, 1, f).(leaderId := Some(1));
            var s2 := BecomeCandidate(BecomeCandidate(s));
            && s.role != Leader && BecomeCandidate(s).role != Leader && s2.role != Leader && s2.id == 2
            && Standing(s2).term == 4 && Winner(s2).role == Leader && Winner(s2).term == 4 && Winner(s2).log == f
  {
  }

  /** Node 1 leads term 1, then term 3.  Its heartbeat thread handles a reply of term 1 only in term 3, by
      which node 2 seems to hold an entry just appended; the next reply, of node 3, which does hold it,
      then makes node 1 commit with two of five nodes.  The next leader knows nothing of it. */
  lemma LateReplyLosesCommitted(f1: Op, f2: Op, g: Op, h: Op) returns (c: Cluster)
    ensures LosesCommitted(c, 1, 2)
  {
    hide Grown, Reached, Known, Fresh, Ruler, Plain, Deposed, RecordMatch, AdvanceCommit, IsMajorityIndex,
      BuildAppendEntries, OnAppendEntries;
    var f := [Entry(1, f1), Entry(1, f2)];
    var c1, late := FirstPart(f1, f2);
    var two := Plain(2, 1, 1, f).(leaderId := Some(1));
    var c2 := SecondPart(c1, two, f, g);
    var c3 := ThirdPart(c2, two, g, h);
    GrownTwice(c1, c2, c3);
    StillReplied(c1, c3, late);
    RulerPushes(1, 3, 2, [Entry(2, g), Entry(3, h)], h);
    LateReply(f, g, h);
    var c4 := DoReply(c3, 1, late, 0);
    MisledFields(f, g, h);
    ThirdBeat(f, g, h);
    var c5 := BeatAndAppend(c4, 1, 3);
    SecondReply(f, g, h);
    var req := BuildAppendEntries(c4.nodes[1], 3);
    var c6 := DoReply(c5, 1, AppendReply(3, AppendMsg(Heartbeat, req), OnAppendEntries(c4.nodes[3], req).1), 2);
    c := LastPart(c6, f);
    assert c.nodes[1].log[..2][0] == Entry(2, g);
  }

  lemma PushTwo(c: Cluster, f1: Op, f2: Op) returns (d: Cluster)
    requires Going(c) && 1 in c.nodes && c.nodes[1] == Ruler(1, 1, 1, [])
    ensures Going(d) && d.nodes == c.nodes[1 := Ruler(1, 1, 1, [Entry(1, f1), Entry(1, f2)])]
  {
    hide Going, Grown, Ruler;
    RulerPushes(1, 1, 1, [], f1);
    RulerPushes(1, 1, 1, [Entry(1, f1)], f2);
    assert [] + [Entry(1, f1)] == [Entry(1, f1)];
    var c1 := DoPush(c, 1, f1);
    d := DoPush(c1, 1, f2);
    assert [Entry(1, f1)] + [Entry(1, f2)] == [Entry(1, f1), Entry(1, f2)];
  }

  lemma FreshFields()
    ensures forall n :: Fresh(n).id == n && Fresh(n).role == Follower && Fresh(n).term == 0 && Fresh(n).log == []
  {
  }

  lemma RulerPushes(n: NodeId, t: nat, next: nat, log: Log, op: Op)
    ensures var s := Ruler(n, t, next, log);
            && s.role == Leader && s.id == n && s.peers == Peers(n) && s.term == t && s.log == log && s.commit == 0
            && s.(log := log + [Entry(t, op)]) == Ruler(n, t, next, log + [Entry(t, op)])
  {
  }

  lemma FirstBeat(log: Log)
    requires log != []
    ensures var req := BuildAppendEntries(Ruler(1, 1, 1, log), 2);
            && req == AppendEntriesReq(1, 1, 0, 0, log, 0)
            && OnAppendEntries(Plain(2, 1, 1, []), req) ==
               (Plain(2, 1, 1, log).(leaderId := Some(1)), AppendEntriesResp(1, true))
  {
    assert log[0..] == log && [][..0] + log == log;
  }
}
