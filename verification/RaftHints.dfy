/** What nodes tell each other and their clients: whom they take for the leader, whom they vote for, and
    what an answer of a later term does. */
module RaftHints {
  import opened KvOps
  import opened RaftTypes
  import opened RaftCore
  import opened RaftCluster

  // ---- Who leads ----

  /** Node `l` has sent a request in term `t`. */
  ghost predicate Heard(c: Cluster, l: NodeId, t: nat) {
    exists m :: m in c.msgs && m.req.leaderId == l && m.req.term == t
  }

  /** A leader names itself, and what another node names sent a request in its present term. */
  ghost predicate HintOk(c: Cluster, s: NodeState) {
    && (s.role == Leader ==> s.leaderId == Some(s.id))
    && (s.role == Candidate ==> s.leaderId == None)
    && (s.role == Follower && s.leaderId.Some? ==> Heard(c, s.leaderId.value, s.term))
  }

  ghost predicate LeadersNamed(c: Cluster) {
    forall n :: n in c.nodes ==> c.nodes[n].id == n && HintOk(c, c.nodes[n])
  }

  /** Only node `n` changed, and no request was taken back. */
  lemma HintsStay(c: Cluster, d: Cluster, n: NodeId)
    requires LeadersNamed(c) && n in c.nodes && n in d.nodes && d.nodes == c.nodes[n := d.nodes[n]] && c.msgs <= d.msgs
    requires d.nodes[n].id == n && HintOk(d, d.nodes[n])
    ensures LeadersNamed(d)
  {
  }

  lemma NamedVote(c: Cluster, n: NodeId, req: RequestVoteReq)
    requires LeadersNamed(c) && n in c.nodes && n in c.view.term
    ensures LeadersNamed(AfterVoteRequest(c, n, req))
  {
    hide Bump, Vote, UpToDate, LeadersNamed;
    var d := AfterVoteRequest(c, n, req);
    NamedNode(c, n, d);
    HintsStay(c, d, n);
  }

  /** What is known of one node, and still is once more requests are sent. */
  lemma NamedNode(c: Cluster, n: NodeId, d: Cluster)
    requires LeadersNamed(c) && n in c.nodes && c.msgs <= d.msgs
    ensures c.nodes[n].id == n && HintOk(c, c.nodes[n]) && HintOk(d, c.nodes[n])
  {
  }

  lemma NamedElection(c: Cluster, n: NodeId, reply: VoteReply)
    requires LeadersNamed(c) && n in c.nodes && n in c.view.term && n in c.view.log
    ensures LeadersNamed(AfterVoteReply(c, n, reply))
  {
    hide Bump, Elect, Filled, LeadersNamed;
    var d := AfterVoteReply(c, n, reply);
    NamedNode(c, n, d);
    HintsStay(c, d, n);
  }

  lemma NamedAppend(c: Cluster, n: NodeId, m: AppendMsg)
    requires LeadersNamed(c) && n in c.nodes && n in c.view.term && m in c.msgs
    ensures LeadersNamed(AfterAppendRequest(c, n, m))
  {
    hide Bump, Accept, Matches, Spliced, TermAt, LeadersNamed;
    var d := AfterAppendRequest(c, n, m);
    NamedNode(c, n, d);
    assert Heard(d, m.req.leaderId, m.req.term);
    HintsStay(c, d, n);
  }

  lemma NamedReply(c: Cluster, n: NodeId, reply: AppendReply, k: nat)
    requires LeadersNamed(c) && n in c.nodes
    ensures LeadersNamed(AfterHeartbeatReply(c, n, reply, k))
    ensures reply.msg.req in c.open ==> LeadersNamed(AfterAck(c, n, reply))
  {
    hide Bump, TermAt, LeadersNamed;
    var d := AfterHeartbeatReply(c, n, reply, k);
    NamedNode(c, n, d);
    HintsStay(c, d, n);
    if reply.msg.req in c.open {
      HintsStay(c, AfterAck(c, n, reply), n);
    }
  }

  lemma NamedKept(c: Cluster, step: Step)
    requires LeadersNamed(c) && Possible(c, step)
    ensures LeadersNamed(Next(c, step))
  {
    hide Bump, Stand, Append, BuildAppendEntries, ClosingRequest, ProposalRequest, VoteRequest, IsMajorityIndex,
      AfterVoteRequest, AfterVoteReply, AfterAppendRequest, AfterHeartbeatReply, AfterAck, Apply, RecordMatch,
      LeadersNamed;
    var n := step.n;
    match step
    case DeliverVote(_, req) => NamedVote(c, n, req);
    case CountVote(_, reply) => NamedElection(c, n, reply);
    case DeliverAppend(_, m) => NamedAppend(c, n, m);
    case HandleHeartbeatReply(_, reply, k) => NamedReply(c, n, reply, k);
    case CountAck(_, reply) => NamedReply(c, n, reply, 0);
    case _ =>
      NamedNode(c, n, Next(c, step));
      HintsStay(c, Next(c, step), n);
  }

  /** In every run of everything the code can do: what a node tells clients about the leader is itself, if it
      leads, and otherwise a node that sent a request in the same term. */
  lemma {:induction false} LeaderHints(b: seq<Cluster>, i: nat)
    requires AnyRun(b) && i < |b|
    ensures LeadersNamed(b[i])
  {
    hide LeadersNamed, Possible, Next;
    if i == 0 {
      NamedInitially(b[0]);
    } else {
      LeaderHints(b, i - 1);
      assert AnyStepAt(b, i - 1);
      var step :| Possible(b[i - 1], step) && b[i] == Next(b[i - 1], step);
      NamedKept(b[i - 1], step);
    }
  }

  lemma NamedInitially(c: Cluster)
    requires Init(c)
    ensures LeadersNamed(c)
  {
    hide PeersOf, Heard;
  }

  lemma RunIsAnyRun(b: seq<Cluster>)
    requires Run(b)
    ensures AnyRun(b)
  {
    hide Possible, Safely, Next, Init;
    forall i ensures AnyStepAt(b, i) {
      assert StepAt(b, i);
    }
  }

  // ---- Answers ----

  /** A vote is granted exactly to a candidate of a later term, or of this one if the vote is not given to
      another, whose last entry is of a later term, or of the same with a log at least as long. */
  lemma VoteGranted(s: NodeState, cand: NodeState)
    ensures var (s', resp) := OnRequestVote(s, VoteRequest(cand));
            && (resp.voteGranted <==>
                && (cand.term > s.term || (cand.term == s.term && s.votedFor in {None, Some(cand.id)}))
                && (LastTerm(cand.log) > LastTerm(s.log)
                    || (LastTerm(cand.log) == LastTerm(s.log) && |cand.log| >= |s.log|)))
            && (resp.voteGranted ==> s'.votedFor == Some(cand.id) && s'.term == cand.term) && s'.log == s.log
  {
  }

  /** A request delivered again gets the same answer and changes nothing more. */
  lemma RequestsRepeat(s: NodeState, vote: RequestVoteReq, req: AppendEntriesReq)
    ensures var (s', resp) := OnRequestVote(s, vote); OnRequestVote(s', vote) == (s', resp)
    ensures var (s', resp) := OnAppendEntries(s, req); OnAppendEntries(s', req) == (s', resp)
  {
    if req.term >= s.term && Matches(s.log, req) {
      SplicedTwice(s.log, req);
    }
  }

  lemma SplicedTwice(log: Log, req: AppendEntriesReq)
    requires Matches(log, req)
    ensures Matches(Spliced(log, req), req) && Spliced(Spliced(log, req), req) == Spliced(log, req)
  {
  }

  /** An answer carries the term its sender is in by then, no earlier than that of the request. */
  lemma AnswersCarryTerm(s: NodeState, vote: RequestVoteReq, req: AppendEntriesReq)
    ensures var (s', resp) := OnRequestVote(s, vote); resp.term == s'.term && s'.term >= s.term && s'.term >= vote.term
    ensures var (s', resp) := OnAppendEntries(s, req); resp.term == s'.term && s'.term >= s.term && s'.term >= req.term
  {
  }

  /** An answer of a later term makes a leader, or a candidate that still stands, a follower of that term,
      whatever it was an answer to. */
  lemma LaterTermDeposes(c: Cluster, step: Step)
    requires Possible(c, step)
    requires match step
             case HandleHeartbeatReply(n, reply, _) => reply.resp.term > c.nodes[n].term
             case HandleClosingReply(n, reply) => reply.resp.term > c.nodes[n].term
             case CountAck(n, reply) => reply.resp.term > c.nodes[n].term && c.nodes[n].role == Leader
             case CountVote(n, reply) =>
               reply.resp.term > c.nodes[n].term == reply.req.term && c.nodes[n].role == Candidate
             case _ => false
    ensures var s, s' := c.nodes[step.n], Next(c, step).nodes[step.n];
            && s'.term == (if step.CountVote? then step.voteReply.resp.term else step.reply.resp.term)
            && s'.role == Follower && s'.votedFor == None && s'.leaderId == None && s'.log == s.log
            && s'.commit == s.commit
  {
    hide Bump, Elect, Filled, IsMajorityIndex;
  }

  /** The request a proposal closes with brings the commit index to a follower with the same log; the one
      that carries the entry moves no commit index. */
  lemma ProposalCommits(s: NodeState, f: NodeState, e: Entry)
    requires f.term <= s.term && f.log == s.log && s.commit <= |s.log|
    ensures OnAppendEntries(f, ClosingRequest(s)).0.commit == if s.commit > f.commit then s.commit else f.commit
    ensures OnAppendEntries(f, ProposalRequest(s, e)).0.commit == f.commit
  {
  }

  /** A proposal whose entry is gone, with the whole log, by the time it reads the header is refused by every
      node with a log of less than 2^64 - 1 entries. */
  lemma WrappedHeaderRefused(s: NodeState, f: NodeState, e: Entry)
    requires s.log == [] && |f.log| < 0xFFFF_FFFF_FFFF_FFFF
    ensures var (f', resp) := OnAppendEntries(f, ProposalRequest(s, e)); !resp.success && f'.log == f.log
  {
  }

  /** Whatever commit index a request claims, its receiver advances past neither that index nor the end of
      its log, does advance whenever the request is accepted and both are ahead, and goes back only if
      its log is cut below what it had committed. */
  lemma CommitWithinLog(s: NodeState, req: AppendEntriesReq)
    ensures var (s', resp) := OnAppendEntries(s, req);
            && (s'.commit != s.commit ==> s'.commit == req.leaderCommit || s'.commit == |s'.log|)
            && (s'.commit > s.commit ==> s'.commit <= req.leaderCommit && s'.commit <= |s'.log|)
            && (resp.success && req.leaderCommit > s.commit && |s'.log| > s.commit ==> s'.commit > s.commit)
            && (s.commit <= |s'.log| ==> s'.commit >= s.commit)
  {
    hide Matches, Spliced;
  }
}
