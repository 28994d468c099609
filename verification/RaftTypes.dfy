/** The values a Raft node holds and exchanges, and the handlers of one node as functions of its
    state.  The class in RaftNode.dfy performs the same transitions in place. */
module RaftTypes {
  import opened KvOps

  type NodeId = int

  datatype Role = Follower | Candidate | Leader

  datatype Entry = Entry(term: nat, op: Op)

  /** Raft index i (counting from 1) is stored at position i - 1. */
  type Log = seq<Entry>

  datatype RequestVoteReq = RequestVoteReq(term: nat, candidateId: NodeId, lastLogIndex: nat, lastLogTerm: nat)
  datatype RequestVoteResp = RequestVoteResp(term: nat, voteGranted: bool)

  datatype AppendEntriesReq = AppendEntriesReq(
    term: nat, leaderId: NodeId, prevLogIndex: nat, prevLogTerm: nat, entries: seq<Entry>, leaderCommit: nat)
  datatype AppendEntriesResp = AppendEntriesResp(term: nat, success: bool)

  datatype NodeState = NodeState(
    id: NodeId,
    peers: seq<NodeId>,
    role: Role,
    leaderId: Option<NodeId>,
    term: nat,
    votedFor: Option<NodeId>,
    log: Log,
    commit: nat,
    lastApplied: nat,
    nextIndex: map<NodeId, nat>,
    matchIndex: map<NodeId, nat>,
    store: KvMap)

  function TermAt(log: Log, idx: nat): nat {
    if idx == 0 || idx > |log| then 0 else log[idx - 1].term
  }

  function LastTerm(log: Log): nat {
    if log == [] then 0 else log[|log| - 1].term
  }

  /** IsUpToDateLocked, for a candidate whose log ends at (`candIdx`, `candTerm`). */
  predicate UpToDate(candIdx: nat, candTerm: nat, log: Log) {
    if candTerm != LastTerm(log) then candTerm > LastTerm(log) else candIdx >= |log|
  }

  function Min(a: nat, b: nat): nat {
    if a < b then a else b
  }

  function Ops(log: Log): seq<Op> {
    seq(|log|, i requires 0 <= i < |log| => log[i].op)
  }

  function InitialNode(id: NodeId, peers: seq<NodeId>): NodeState {
    NodeState(id, peers, Follower, None, 0, None, [], 0, 0, map[], map[], map[])
  }

  function BecomeFollower(s: NodeState, newTerm: nat, leader: Option<NodeId>): NodeState {
    s.(role := Follower, leaderId := leader, term := newTerm, votedFor := None)
  }

  function BecomeCandidate(s: NodeState): NodeState {
    s.(role := Candidate, leaderId := None, term := s.term + 1, votedFor := Some(s.id))
  }

  /** `m` with every key of `keys` set to `v`. */
  function Filled(m: map<NodeId, nat>, keys: seq<NodeId>, v: nat): map<NodeId, nat> {
    m + (map p | p in keys :: v)
  }

  function BecomeLeader(s: NodeState): NodeState {
    s.(role := Leader, leaderId := Some(s.id),
       nextIndex := Filled(s.nextIndex, s.peers, |s.log| + 1),
       matchIndex := Filled(s.matchIndex, s.peers, 0))
  }

  function VoteRequest(s: NodeState): RequestVoteReq {
    RequestVoteReq(s.term, s.id, |s.log|, LastTerm(s.log))
  }

  function OnRequestVote(s: NodeState, req: RequestVoteReq): (NodeState, RequestVoteResp) {
    if req.term < s.term then (s, RequestVoteResp(s.term, false))
    else
      var s1 := if req.term > s.term then BecomeFollower(s, req.term, None) else s;
      if (s1.votedFor.None? || s1.votedFor.value == req.candidateId)
         && UpToDate(req.lastLogIndex, req.lastLogTerm, s1.log)
      then (s1.(votedFor := Some(req.candidateId)), RequestVoteResp(s1.term, true))
      else (s1, RequestVoteResp(s1.term, false))
  }

  /** The log after an accepted request: any non-empty request cuts the log back to the previous
      index and appends, whether or not the entries conflict. */
  function Spliced(log: Log, req: AppendEntriesReq): Log
    requires req.prevLogIndex <= |log|
  {
    if req.entries == [] then log else log[..req.prevLogIndex] + req.entries
  }

  predicate Matches(log: Log, req: AppendEntriesReq) {
    req.prevLogIndex <= |log| && TermAt(log, req.prevLogIndex) == req.prevLogTerm
  }

  function OnAppendEntries(s: NodeState, req: AppendEntriesReq): (NodeState, AppendEntriesResp) {
    if req.term < s.term then (s, AppendEntriesResp(s.term, false))
    else
      var s1 := if req.term > s.term then BecomeFollower(s, req.term, Some(req.leaderId))
                else s.(role := Follower, leaderId := Some(req.leaderId));
      if !Matches(s1.log, req) then (s1, AppendEntriesResp(s1.term, false))
      else
        var log := Spliced(s1.log, req);
        (s1.(log := log,
             commit := if req.leaderCommit > s1.commit then Min(req.leaderCommit, |log|) else s1.commit),
         AppendEntriesResp(s1.term, true))
  }

  function NextFor(s: NodeState, peer: NodeId): nat {
    if peer in s.nextIndex then s.nextIndex[peer] else 1
  }

  /** BuildAppendEntriesLocked: the suffix of the log from nextIndex on. */
  function BuildAppendEntries(s: NodeState, peer: NodeId): AppendEntriesReq {
    var next := NextFor(s, peer);
    var prev := if next <= 1 then 0 else next - 1;
    AppendEntriesReq(s.term, s.id, prev, TermAt(s.log, prev),
                     if 1 <= next <= |s.log| then s.log[next - 1..] else [], s.commit)
  }

  /** The one-entry request a proposal sends for the entry `e` it appended.  Its header is read under a
      second lock, from whatever term and log the node has by then; on an empty log the index wraps. */
  function ProposalRequest(s: NodeState, e: Entry): AppendEntriesReq {
    var prev := if s.log == [] then 0xFFFF_FFFF_FFFF_FFFF else |s.log| - 1;
    AppendEntriesReq(s.term, s.id, prev, TermAt(s.log, prev), [e], 0)
  }

  /** The empty request a proposal closes with; it is built whatever the role is by then. */
  function ClosingRequest(s: NodeState): AppendEntriesReq {
    AppendEntriesReq(s.term, s.id, |s.log|, LastTerm(s.log), [], s.commit)
  }

  function Supporters(s: NodeState, n: nat): set<NodeId> {
    set p | p in s.matchIndex && s.matchIndex[p] >= n
  }

  /** How many of the leader's own last index and the recorded match indices are at least `n`. */
  function SupportCount(s: NodeState, n: nat): nat {
    |Supporters(s, n)| + if |s.log| >= n then 1 else 0
  }

  /** `n` is at position size/2 of the sorted match values: at least size - size/2 values reach it
      and fewer than that exceed it. */
  predicate IsMajorityIndex(s: NodeState, n: nat) {
    var size := |s.matchIndex| + 1;
    SupportCount(s, n) >= size - size / 2 && SupportCount(s, n + 1) < size - size / 2
  }

  function AdvanceCommit(s: NodeState, n: nat): NodeState {
    if n > s.commit && TermAt(s.log, n) == s.term then s.(commit := n) else s
  }

  /** A successful heartbeat reply records what was sent; the commit index then moves to `n`,
      the majority index of the updated node. */
  function RecordMatch(s: NodeState, peer: NodeId, req: AppendEntriesReq): NodeState {
    if req.entries == [] then s
    else
      var sentLast := req.prevLogIndex + |req.entries|;
      s.(matchIndex := s.matchIndex[peer := sentLast], nextIndex := s.nextIndex[peer := sentLast + 1])
  }

  function Backtrack(s: NodeState, peer: NodeId): NodeState {
    if peer in s.nextIndex && s.nextIndex[peer] > 1
    then s.(nextIndex := s.nextIndex[peer := s.nextIndex[peer] - 1])
    else s
  }

  /** ApplyLoop: feed the next committed entry to the state machine. */
  function ApplyNext(s: NodeState): NodeState
    requires s.lastApplied < s.commit <= |s.log|
  {
    s.(store := Apply(s.store, s.log[s.lastApplied].op), lastApplied := s.lastApplied + 1)
  }
}
