/** A cluster of nodes and the requests and replies between them, as a state machine.

    Every critical section of the code is a step of its own, and the next step is chosen freely:
    which peer is contacted and when, lost requests, requests delivered late, twice or out of order,
    any number of proposals in progress, and any interleaving of the election, heartbeat, apply and
    proposal threads of all nodes.  `Possible` says what the code can do at all.  `Safely` leaves out
    three kinds of step, each by the very condition that makes it do harm:

    - a request by which its receiver cuts what it already accepted from the same leader;
    - a proposal whose header is read after the node's term changed or another entry came last;
    - a successful heartbeat reply that records, for the leader's present term, more than the peer
      accepted in it, or moves the commit index of a node that does not lead its term.

    RaftFailures.dfy has a run for each of the three that loses something acknowledged or committed; for
    the third it is a run of its first half.

    `view` is an auxiliary variable: it records the history and influences nothing but `Safely`. */
module RaftCluster {
  import opened KvOps
  import opened RaftTypes
  import opened RaftCore

  datatype Kind = Heartbeat | Proposal | Closing
  datatype AppendMsg = AppendMsg(kind: Kind, req: AppendEntriesReq)
  datatype AppendReply = AppendReply(peer: NodeId, msg: AppendMsg, resp: AppendEntriesResp)
  datatype VoteReply = VoteReply(peer: NodeId, req: RequestVoteReq, resp: RequestVoteResp)

  /** A ProposePut or ProposeDel that appended its entry and did not yet read the header. */
  datatype Pushed = Pushed(node: NodeId, entry: Entry)

  /** A proposal that returned true. */
  datatype Acknowledged = Acknowledged(term: nat, index: nat, entry: Entry)

  /** `open` maps the request of each proposal in progress to the nodes that acknowledged it, the
      proposer included. */
  datatype Cluster = Cluster(
    nodes: map<NodeId, NodeState>,
    ballots: map<NodeId, set<NodeId>>,
    voteReqs: set<RequestVoteReq>,
    voteReplies: set<VoteReply>,
    msgs: set<AppendMsg>,
    replies: set<AppendReply>,
    pushed: set<Pushed>,
    open: map<AppendEntriesReq, set<NodeId>>,
    acknowledged: set<Acknowledged>,
    view: View)

  datatype Step =
    | StandForElection(n: NodeId)
    | DeliverVote(n: NodeId, voteReq: RequestVoteReq)
    | LoseVote(n: NodeId, voteReq: RequestVoteReq)
    | CountVote(n: NodeId, voteReply: VoteReply)
    | SendHeartbeat(n: NodeId, peer: NodeId)
    | SendClosing(n: NodeId)
    | DeliverAppend(n: NodeId, msg: AppendMsg)
    | LoseAppend(n: NodeId, msg: AppendMsg)
    | HandleHeartbeatReply(n: NodeId, reply: AppendReply, majority: nat)
    | HandleClosingReply(n: NodeId, reply: AppendReply)
    | PushEntry(n: NodeId, op: Op)
    | SendEntry(n: NodeId, entry: Entry)
    | CountAck(n: NodeId, reply: AppendReply)
    | AbandonProposal(n: NodeId, req: AppendEntriesReq)
    | ApplyEntry(n: NodeId)

  ghost predicate Init(c: Cluster) {
    && (forall n :: n in c.nodes ==>
          PeersOf(c.nodes.Keys, n, c.nodes[n].peers) && c.nodes[n] == InitialNode(n, c.nodes[n].peers))
    && c == Cluster(c.nodes, map[], {}, {}, {}, {}, {}, map[], {}, Initial(c.nodes.Keys))
  }

  /** A node's peer list names every other member once. */
  ghost predicate PeersOf(members: set<NodeId>, n: NodeId, peers: seq<NodeId>) {
    && (set p | p in peers) == members - {n}
    && |peers| + 1 == |members|
  }

  function Needed(c: Cluster): nat {
    |c.nodes| / 2 + 1
  }

  /** What the code can do next. */
  ghost predicate Possible(c: Cluster, step: Step) {
    && step.n in c.nodes
    && step.n in c.view.term && step.n in c.view.log
    && var s := c.nodes[step.n];
    match step
    case StandForElection(_) => s.role != Leader
    case DeliverVote(n, req) => req in c.voteReqs && n != req.candidateId
    case LoseVote(n, req) => req in c.voteReqs && n != req.candidateId
    case CountVote(n, reply) => reply in c.voteReplies && reply.req.candidateId == n
    case SendHeartbeat(_, peer) => s.role == Leader && peer in s.peers
    case SendClosing(_) => true
    case DeliverAppend(n, m) => m in c.msgs && n != m.req.leaderId
    case LoseAppend(n, m) => m in c.msgs && n != m.req.leaderId
    case HandleHeartbeatReply(n, reply, majority) =>
      && reply in c.replies && reply.msg.kind == Heartbeat && reply.msg.req.leaderId == n
      && (reply.resp.term <= s.term && reply.resp.success ==>
            IsMajorityIndex(RecordMatch(s, reply.peer, reply.msg.req), majority))
    case HandleClosingReply(n, reply) => reply in c.replies && reply.msg.kind == Closing && reply.msg.req.leaderId == n
    case PushEntry(_, _) => s.role == Leader
    case SendEntry(n, e) => Pushed(n, e) in c.pushed
    case CountAck(n, reply) =>
      reply in c.replies && reply.msg.kind == Proposal && reply.msg.req.leaderId == n && reply.msg.req in c.open
    case AbandonProposal(n, req) => req in c.open && req.leaderId == n
    case ApplyEntry(_) => s.lastApplied < s.commit <= |s.log|
  }

  /** Node `n` takes over the request's entries. */
  predicate TakesOver(c: Cluster, n: NodeId, req: AppendEntriesReq) {
    n in c.nodes && req.entries != [] && req.term >= c.nodes[n].term && Matches(c.nodes[n].log, req)
  }

  /** The request cuts nothing that node `n` accepted in its term; one that is refused cuts nothing at all. */
  ghost predicate CutsNothing(c: Cluster, n: NodeId, req: AppendEntriesReq) {
    TakesOver(c, n, req) ==> Acked(c.view, n, req.term) <= req.prevLogIndex + |req.entries|
  }

  /** The header read for entry `e` still belongs to it. */
  ghost predicate HeaderFits(s: NodeState, e: Entry) {
    s.log != [] && s.term == e.term && s.log[|s.log| - 1] == e
  }

  /** What a successful heartbeat reply records holds in the node's present term. */
  ghost predicate RecordHolds(c: Cluster, n: NodeId, reply: AppendReply, majority: nat)
    requires n in c.nodes
  {
    var s, req := c.nodes[n], reply.msg.req;
    if Leads(c.view, n, s.term) then
      req.entries == [] || req.prevLogIndex + |req.entries| <= Acked(c.view, reply.peer, s.term)
    else AdvanceCommit(RecordMatch(s, reply.peer, req), majority).commit == s.commit
  }

  ghost predicate Safely(c: Cluster, step: Step)
    requires step.n in c.nodes
  {
    var s := c.nodes[step.n];
    match step
    case DeliverAppend(n, m) => CutsNothing(c, n, m.req)
    case SendEntry(_, e) => HeaderFits(s, e)
    case HandleHeartbeatReply(n, reply, majority) =>
      reply.resp.term <= s.term && reply.resp.success ==> RecordHolds(c, n, reply, majority)
    case _ => true
  }

  ghost predicate Enabled(c: Cluster, step: Step) {
    Possible(c, step) && Safely(c, step)
  }

  function SetNode(c: Cluster, n: NodeId, s: NodeState): Cluster {
    c.(nodes := c.nodes[n := s])
  }

  /** A reply from a later term turns the node into a follower of that term. */
  function StepDown(c: Cluster, n: NodeId, t: nat): Cluster
    requires n in c.nodes
  {
    SetNode(c, n, BecomeFollower(c.nodes[n], t, None)).(view := Bump(c.view, n, t))
  }

  function AfterVoteRequest(c: Cluster, n: NodeId, req: RequestVoteReq): Cluster
    requires n in c.nodes && n in c.view.term
  {
    var (s, resp) := OnRequestVote(c.nodes[n], req);
    var v := if req.term > c.nodes[n].term then Bump(c.view, n, req.term) else c.view;
    c.(nodes := c.nodes[n := s],
       voteReplies := c.voteReplies + {VoteReply(n, req, resp)},
       view := if resp.voteGranted then Vote(v, n, req.candidateId) else v)
  }

  function AfterVoteReply(c: Cluster, n: NodeId, reply: VoteReply): Cluster
    requires n in c.nodes && n in c.view.term && n in c.view.log
  {
    var s := c.nodes[n];
    if s.role != Candidate || s.term != reply.req.term then c
    else if reply.resp.term > s.term then StepDown(c, n, reply.resp.term)
    else
      var before := if n in c.ballots then c.ballots[n] else {n};
      var ballot := before + if reply.resp.voteGranted then {reply.peer} else {};
      var c1 := c.(ballots := c.ballots[n := ballot]);
      if |ballot| >= Needed(c) then c1.(nodes := c.nodes[n := BecomeLeader(s)], view := Elect(c.view, n)) else c1
  }

  function AfterAppendRequest(c: Cluster, n: NodeId, m: AppendMsg): Cluster
    requires n in c.nodes && n in c.view.term
  {
    var (s, resp) := OnAppendEntries(c.nodes[n], m.req);
    var v := if m.req.term > c.nodes[n].term then Bump(c.view, n, m.req.term) else c.view;
    var k := m.req.prevLogIndex + |m.req.entries|;
    var takesOver := resp.success && m.req.entries != [] && v.term[n] in v.leaderLog && k <= |v.leaderLog[v.term[n]]|;
    c.(nodes := c.nodes[n := s],
       replies := c.replies + {AppendReply(n, m, resp)},
       view := if takesOver then Accept(v, n, k) else v)
  }

  function AfterHeartbeatReply(c: Cluster, n: NodeId, reply: AppendReply, majority: nat): Cluster
    requires n in c.nodes
  {
    var s := c.nodes[n];
    if reply.resp.term > s.term then StepDown(c, n, reply.resp.term)
    else if reply.resp.success then SetNode(c, n, AdvanceCommit(RecordMatch(s, reply.peer, reply.msg.req), majority))
    else SetNode(c, n, Backtrack(s, reply.peer))
  }

  /** A proposal's first critical section: the leader appends the entry. */
  function AfterPush(c: Cluster, n: NodeId, op: Op): Cluster
    requires n in c.nodes && n in c.view.term && n in c.view.log
  {
    var s := c.nodes[n];
    var e := Entry(s.term, op);
    c.(nodes := c.nodes[n := s.(log := s.log + [e])], pushed := c.pushed + {Pushed(n, e)}, view := Append(c.view, n, e))
  }

  /** Its second one: term and index are read again and the request is built. */
  function AfterSend(c: Cluster, n: NodeId, e: Entry): Cluster
    requires n in c.nodes
  {
    var req := ProposalRequest(c.nodes[n], e);
    c.(msgs := c.msgs + {AppendMsg(Proposal, req)}, open := c.open[req := {n}])
  }

  /** ProposePut's loop body for one reply: it gives up when no longer leader, steps down on a
      later term, and otherwise counts; with enough acks the proposal is acknowledged. */
  function AfterAck(c: Cluster, n: NodeId, reply: AppendReply): Cluster
    requires n in c.nodes && reply.msg.req in c.open
  {
    var s, req := c.nodes[n], reply.msg.req;
    if s.role != Leader then c.(open := c.open - {req})
    else if reply.resp.term > s.term then StepDown(c, n, reply.resp.term).(open := c.open - {req})
    else
      var acks := c.open[req] + if reply.resp.success then {reply.peer} else {};
      if |acks| >= Needed(c) && req.entries != [] then
        c.(open := c.open - {req},
           acknowledged := c.acknowledged + {Acknowledged(req.term, req.prevLogIndex + 1, req.entries[0])})
      else c.(open := c.open[req := acks])
  }

  ghost function Next(c: Cluster, step: Step): Cluster
    requires Possible(c, step)
  {
    match step
    case StandForElection(n) =>
      var s := BecomeCandidate(c.nodes[n]);
      c.(nodes := c.nodes[n := s], ballots := c.ballots[n := {n}],
         voteReqs := c.voteReqs + {VoteRequest(s)}, view := Stand(c.view, n))
    case DeliverVote(n, req) => AfterVoteRequest(c, n, req)
    case LoseVote(n, req) => c.(voteReplies := c.voteReplies + {VoteReply(n, req, RequestVoteResp(req.term, false))})
    case CountVote(n, reply) => AfterVoteReply(c, n, reply)
    case SendHeartbeat(n, peer) => c.(msgs := c.msgs + {AppendMsg(Heartbeat, BuildAppendEntries(c.nodes[n], peer))})
    case SendClosing(n) => c.(msgs := c.msgs + {AppendMsg(Closing, ClosingRequest(c.nodes[n]))})
    case DeliverAppend(n, m) => AfterAppendRequest(c, n, m)
    case LoseAppend(n, m) => c.(replies := c.replies + {AppendReply(n, m, AppendEntriesResp(m.req.term, false))})
    case HandleHeartbeatReply(n, reply, majority) => AfterHeartbeatReply(c, n, reply, majority)
    case HandleClosingReply(n, reply) =>
      if reply.resp.term > c.nodes[n].term then StepDown(c, n, reply.resp.term) else c
    case PushEntry(n, op) => AfterPush(c, n, op)
    case SendEntry(n, e) => AfterSend(c, n, e)
    case CountAck(n, reply) => AfterAck(c, n, reply)
    case AbandonProposal(n, req) => c.(open := c.open - {req})
    case ApplyEntry(n) => SetNode(c, n, ApplyNext(c.nodes[n]))
  }

  ghost predicate IsStep(c: Cluster, c': Cluster) {
    exists step :: Enabled(c, step) && c' == Next(c, step)
  }

  /** A run: a sequence of cluster states from an initial one. */
  ghost predicate Run(b: seq<Cluster>) {
    && b != [] && Init(b[0])
    && forall i :: StepAt(b, i)
  }

  ghost predicate StepAt(b: seq<Cluster>, i: int) {
    0 <= i < |b| - 1 ==> IsStep(b[i], b[i + 1])
  }

  /** A run in which every possible step may be taken, harmful or not. */
  ghost predicate AnyRun(b: seq<Cluster>) {
    && b != [] && Init(b[0])
    && forall i :: AnyStepAt(b, i)
  }

  ghost predicate AnyStepAt(b: seq<Cluster>, i: int) {
    0 <= i < |b| - 1 ==> exists step :: Possible(b[i], step) && b[i + 1] == Next(b[i], step)
  }

  ghost predicate LeaderAt(b: seq<Cluster>, i: nat, n: NodeId, t: nat) {
    i < |b| && n in b[i].nodes && b[i].nodes[n].role == Leader && b[i].nodes[n].term == t
  }
}
