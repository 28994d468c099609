/** What a majority can always do.  From every state of every run, whatever was sent, lost or left
    half done before, the nodes of any strict majority can elect a leader, take in a new entry, and end
    with the same log, all of it committed and applied, without a step of any other node.  The one
    exception is a cluster of a single node, which never elects anyone. */
module RaftProgress {
  import opened KvOps
  import opened RaftTypes
  import opened Quorums
  import opened RaftCore
  import opened RaftCluster
  import opened RaftHints
  import opened RaftInvariant
  import opened RaftSteps
  import opened RaftSafety
  import opened RaftCatchUp
  import RaftNodes

  // ---- Paths on which only the nodes of `q` act ----

  ghost predicate StepOf(c: Cluster, c': Cluster, q: set<NodeId>) {
    exists step: Step :: step.n in q && Enabled(c, step) && c' == Next(c, step)
  }

  ghost predicate PathAt(b: seq<Cluster>, i: int, q: set<NodeId>) {
    0 <= i < |b| - 1 ==> StepOf(b[i], b[i + 1], q)
  }

  ghost predicate Path(b: seq<Cluster>, q: set<NodeId>) {
    b != [] && forall i :: PathAt(b, i, q)
  }

  ghost predicate Reaches(c: Cluster, d: Cluster, q: set<NodeId>) {
    exists b :: Path(b, q) && b[0] == c && b[|b| - 1] == d
  }

  ghost predicate Going(c0: Cluster, c: Cluster, q: set<NodeId>) {
    Reaches(c0, c, q) && ClusterInv(c) && c.nodes.Keys == c0.nodes.Keys && q <= c.nodes.Keys
  }

  lemma Started(c: Cluster, q: set<NodeId>)
    requires ClusterInv(c) && q <= c.nodes.Keys
    ensures Going(c, c, q)
  {
    hide ClusterInv;
    assert forall i :: PathAt([c], i, q);
    assert Path([c], q);
  }

  lemma Longer(b: seq<Cluster>, q: set<NodeId>, step: Step)
    requires Path(b, q) && Enabled(b[|b| - 1], step) && step.n in q
    ensures Path(b + [Next(b[|b| - 1], step)], q)
  {
    hide Possible, Safely, Next;
    var longer := b + [Next(b[|b| - 1], step)];
    forall i ensures PathAt(longer, i, q) {
      assert PathAt(b, i, q);
      if 0 <= i < |b| - 1 {
        assert longer[i] == b[i] && longer[i + 1] == b[i + 1];
      } else if i == |b| - 1 {
        assert StepOf(longer[i], longer[i + 1], q);
      }
    }
  }

  lemma Take(c0: Cluster, c: Cluster, q: set<NodeId>, step: Step)
    requires Going(c0, c, q) && Enabled(c, step) && step.n in q
    ensures Going(c0, Next(c, step), q)
  {
    hide ClusterInv, Possible, Safely, Next, PathAt;
    StepKeeps(c, step);
    var b :| Path(b, q) && b[0] == c0 && b[|b| - 1] == c;
    Longer(b, q, step);
    var longer := b + [Next(c, step)];
    assert longer[0] == c0 && longer[|longer| - 1] == Next(c, step);
  }

  lemma MemberOf<T>(s: set<T>) returns (x: T)
    requires |s| > 0
    ensures x in s
  {
    x :| x in s;
  }

  lemma NodeFacts(c: Cluster, n: NodeId)
    requires ClusterInv(c) && n in c.nodes
    ensures var s := c.nodes[n];
            && n in c.view.term && n in c.view.log && s.id == n && PeersOf(c.nodes.Keys, n, s.peers)
            && s.lastApplied <= s.commit <= |s.log| && s.store == Fold(map[], Ops(s.log[..s.lastApplied]))
            && forall p :: p in c.nodes && p != n ==> p in s.peers
  {
    hide Network, Inv, RoleOk, LeaderOk, Safe;
    assert Tied(c, n) && CommitOk(c, n);
    var names := set x | x in c.nodes[n].peers;
    assert names == c.nodes.Keys - {n};
    forall p | p in c.nodes && p != n ensures p in c.nodes[n].peers {
      assert p in names;
    }
  }

  // ---- Whose log is best ----

  predicate AtLeast(a: Log, b: Log) {
    UpToDate(|a|, LastTerm(a), b)
  }

  /** The vote check orders logs: of any two, the holder of one gets the vote of the other's. */
  lemma VoteCheckIsTotal(a: Log, b: Log, c: Log)
    ensures AtLeast(a, b) || AtLeast(b, a)
    ensures AtLeast(a, b) && AtLeast(b, c) ==> AtLeast(a, c)
    ensures AtLeast(a, b) && AtLeast(b, a) <==> |a| == |b| && LastTerm(a) == LastTerm(b)
    ensures b <= a && RaftCore.Ascending(a) ==> AtLeast(a, b)
  {
  }

  lemma {:induction false} BestLog(c: Cluster, q: set<NodeId>) returns (n: NodeId)
    requires q <= c.nodes.Keys && |q| > 0
    ensures n in q && forall p :: p in q ==> AtLeast(c.nodes[n].log, c.nodes[p].log)
    decreases |q|
  {
    hide AtLeast;
    var x := MemberOf(q);
    if q == {x} {
      n := x;
      VoteCheckIsTotal(c.nodes[x].log, c.nodes[x].log, []);
    } else {
      var m := BestLog(c, q - {x});
      VoteCheckIsTotal(c.nodes[x].log, c.nodes[m].log, []);
      n := if AtLeast(c.nodes[m].log, c.nodes[x].log) then m else x;
      forall p | p in q ensures AtLeast(c.nodes[n].log, c.nodes[p].log) {
        VoteCheckIsTotal(c.nodes[x].log, c.nodes[m].log, c.nodes[p].log);
        VoteCheckIsTotal(c.nodes[x].log, c.nodes[x].log, []);
      }
    }
  }

  lemma {:induction false} LastTermOf(c: Cluster, q: set<NodeId>) returns (t: nat)
    requires q <= c.nodes.Keys
    ensures forall p :: p in q ==> c.nodes[p].term <= t
    decreases |q|
  {
    t := 0;
    if |q| > 0 {
      var x := MemberOf(q);
      var u := LastTermOf(c, q - {x});
      t := if u < c.nodes[x].term then c.nodes[x].term else u;
    }
  }

  // ---- Winning an election ----

  lemma DoStand(c0: Cluster, c: Cluster, q: set<NodeId>, n: NodeId) returns (d: Cluster)
    requires Going(c0, c, q) && n in q && c.nodes[n].role != Leader
    ensures Going(c0, d, q) && d.nodes == c.nodes[n := BecomeCandidate(c.nodes[n])]
    ensures n in d.ballots && d.ballots[n] == {n} && VoteRequest(d.nodes[n]) in d.voteReqs
  {
    hide Reaches, ClusterInv, VoteRequest;
    NodeFacts(c, n);
    Take(c0, c, q, StandForElection(n));
    d := Next(c, StandForElection(n));
  }

  /** Standing again and again takes a node to a term of its own. */
  lemma {:induction false} DoCampaign(c0: Cluster, c: Cluster, q: set<NodeId>, n: NodeId, t: nat) returns (d: Cluster)
    requires Going(c0, c, q) && n in q && c.nodes[n].role != Leader
    ensures Going(c0, d, q) && n in d.nodes && d.nodes == c.nodes[n := d.nodes[n]]
    ensures d.nodes[n].role == Candidate && d.nodes[n].term > t && d.nodes[n].log == c.nodes[n].log
    ensures n in d.ballots && d.ballots[n] == {n} && VoteRequest(d.nodes[n]) in d.voteReqs
    decreases t - c.nodes[n].term
  {
    hide Reaches, ClusterInv, VoteRequest;
    d := DoStand(c0, c, q, n);
    if d.nodes[n].term <= t {
      d := DoCampaign(c0, d, q, n, t);
    }
  }

  /** Node `p` grants its vote and the candidate counts it. */
  lemma DoVote(c0: Cluster, c: Cluster, q: set<NodeId>, n: NodeId, p: NodeId) returns (d: Cluster)
    requires Going(c0, c, q) && n in q && p in q && n != p
    requires c.nodes[n].role == Candidate && VoteRequest(c.nodes[n]) in c.voteReqs && n in c.ballots
    requires c.nodes[p].term < c.nodes[n].term && AtLeast(c.nodes[n].log, c.nodes[p].log)
    ensures var s, ballot := c.nodes[n], c.ballots[n] + {p};
            && Going(c0, d, q) && p in d.nodes && d.nodes[p].term == s.term && d.nodes[p].log == c.nodes[p].log
            && n in d.ballots && d.ballots[n] == ballot && c.voteReqs <= d.voteReqs
            && d.nodes == c.nodes[p := d.nodes[p]][n := if |ballot| >= Needed(c) then BecomeLeader(s) else s]
  {
    hide Reaches, ClusterInv, AtLeast, Filled, Bump, Vote, Elect;
    var s := c.nodes[n];
    var req := VoteRequest(s);
    NodeFacts(c, n);
    NodeFacts(c, p);
    Take(c0, c, q, DeliverVote(p, req));
    var c1 := Next(c, DeliverVote(p, req));
    VoteGranted(c.nodes[p], s);
    assert OnRequestVote(c.nodes[p], req).1 == RequestVoteResp(s.term, true) by {
      AtLeastIs(s.log, c.nodes[p].log);
    }
    var reply := VoteReply(p, req, RequestVoteResp(s.term, true));
    NodeFacts(c1, n);
    Take(c0, c1, q, CountVote(n, reply));
    d := Next(c1, CountVote(n, reply));
  }

  lemma AtLeastIs(a: Log, b: Log)
    requires AtLeast(a, b)
    ensures LastTerm(a) > LastTerm(b) || (LastTerm(a) == LastTerm(b) && |a| >= |b|)
  {
  }

  /** With the votes of `rest` the candidate reaches a majority. */
  lemma {:induction false} DoPoll(c0: Cluster, c: Cluster, q: set<NodeId>, n: NodeId, rest: set<NodeId>)
    returns (d: Cluster)
    requires Going(c0, c, q) && n in q && rest <= q && n !in rest
    requires c.nodes[n].role == Candidate && VoteRequest(c.nodes[n]) in c.voteReqs && n in c.ballots
    requires c.ballots[n] !! rest && |c.ballots[n]| < Needed(c) <= |c.ballots[n]| + |rest|
    requires forall p :: p in rest ==>
               c.nodes[p].term < c.nodes[n].term && AtLeast(c.nodes[n].log, c.nodes[p].log)
    requires forall p :: p in q ==> c.nodes[p].term <= c.nodes[n].term
    ensures Going(c0, d, q) && Ruling(d, q, n) && d.nodes[n].leaderId == Some(n)
    decreases |rest|
  {
    hide Reaches, ClusterInv, AtLeast, Filled, VoteRequest;
    NodeFacts(c, n);
    var p := MemberOf(rest);
    d := DoVote(c0, c, q, n, p);
    assert |c.ballots[n] + {p}| == |c.ballots[n]| + 1;
    if |c.ballots[n] + {p}| < Needed(c) {
      d := DoPoll(c0, d, q, n, rest - {p});
    }
  }

  /** Node `n` leads, and no node of `q` is in a later term. */
  ghost predicate Ruling(c: Cluster, q: set<NodeId>, n: NodeId) {
    && n in q && q <= c.nodes.Keys && c.nodes[n].role == Leader
    && forall p :: p in q ==> c.nodes[p].term <= c.nodes[n].term
  }

  lemma DoDeliver(c0: Cluster, c: Cluster, q: set<NodeId>, p: NodeId, m: AppendMsg) returns (d: Cluster)
    requires Going(c0, c, q) && p in q && m in c.msgs && p != m.req.leaderId && CutsNothing(c, p, m.req)
    ensures Going(c0, d, q) && d.nodes == c.nodes[p := OnAppendEntries(c.nodes[p], m.req).0] && d.open == c.open
    ensures AppendReply(p, m, OnAppendEntries(c.nodes[p], m.req).1) in d.replies && c.msgs <= d.msgs
  {
    hide Reaches, ClusterInv, OnAppendEntries, CutsNothing, Bump, Accept;
    NodeFacts(c, p);
    Take(c0, c, q, DeliverAppend(p, m));
    d := Next(c, DeliverAppend(p, m));
  }

  /** A leader that hears of a later term steps down; its log stays. */
  lemma DoDepose(c0: Cluster, c: Cluster, q: set<NodeId>, n: NodeId, p: NodeId) returns (d: Cluster)
    requires Going(c0, c, q) && n in q && p in q && c.nodes[n].role == Leader && c.nodes[p].term > c.nodes[n].term
    ensures Going(c0, d, q) && d.nodes == c.nodes[n := BecomeFollower(c.nodes[n], c.nodes[p].term, None)]
  {
    hide Reaches, ClusterInv, IsMajorityIndex;
    NodeFacts(c, n);
    NodeFacts(c, p);
    Take(c0, c, q, SendHeartbeat(n, p));
    var c1 := Next(c, SendHeartbeat(n, p));
    var m := AppendMsg(Heartbeat, BuildAppendEntries(c.nodes[n], p));
    var c2 := DoDeliver(c0, c1, q, p, m);
    var reply := AppendReply(p, m, AppendEntriesResp(c.nodes[p].term, false));
    assert c2.nodes == c.nodes;
    NodeFacts(c2, n);
    Take(c0, c2, q, HandleHeartbeatReply(n, reply, 0));
    d := Next(c2, HandleHeartbeatReply(n, reply, 0));
  }

  /** Any strict majority of two or more nodes can elect a leader. */
  lemma DoElect(c: Cluster, q: set<NodeId>) returns (d: Cluster, n: NodeId)
    requires ClusterInv(c) && LeadersNamed(c) && Quorum(c.nodes.Keys, q) && |c.nodes| >= 2
    ensures Going(c, d, q) && Ruling(d, q, n) && d.nodes[n].leaderId == Some(n)
  {
    hide Reaches, ClusterInv, AtLeast, VoteRequest;
    Started(c, q);
    d := c;
    n := BestLog(c, q);
    if d.nodes[n].role == Leader && exists p :: p in q && d.nodes[p].term > d.nodes[n].term {
      var p :| p in q && d.nodes[p].term > d.nodes[n].term;
      d := DoDepose(c, d, q, n, p);
    }
    if d.nodes[n].role != Leader {
      var t := LastTermOf(d, q);
      d := DoCampaign(c, d, q, n, t);
      assert |{n}| == 1 && |q - {n}| == |q| - 1 && |c.nodes.Keys| == |c.nodes| == |d.nodes|;
      d := DoPoll(c, d, q, n, q - {n});
    }
  }

  // ---- The commit rule ----

  ghost predicate WithinLog(s: NodeState) {
    forall x :: x in s.matchIndex ==> s.matchIndex[x] <= |s.log|
  }

  lemma NoneBeyondLog(s: NodeState)
    requires WithinLog(s)
    ensures SupportCount(s, |s.log| + 1) == 0 && SupportCount(s, 0) == |s.matchIndex| + 1
  {
    if |Supporters(s, |s.log| + 1)| > 0 {
      var x := MemberOf(Supporters(s, |s.log| + 1));
    }
    assert Supporters(s, 0) == s.matchIndex.Keys;
    assert |s.matchIndex.Keys| == |s.matchIndex|;
  }

  lemma {:induction false} MajorityBetween(s: NodeState, lo: nat, hi: nat) returns (k: nat)
    requires var size := |s.matchIndex| + 1; lo < hi && SupportCount(s, lo) >= size - size / 2 > SupportCount(s, hi)
    ensures IsMajorityIndex(s, k)
    decreases hi - lo
  {
    hide SupportCount;
    var size := |s.matchIndex| + 1;
    if SupportCount(s, lo + 1) < size - size / 2 {
      k := lo;
    } else {
      k := MajorityBetween(s, lo + 1, hi);
    }
  }

  lemma SomeMajorityIndex(s: NodeState) returns (k: nat)
    requires WithinLog(s)
    ensures IsMajorityIndex(s, k)
  {
    hide SupportCount, WithinLog, IsMajorityIndex;
    NoneBeyondLog(s);
    k := MajorityBetween(s, 0, |s.log| + 1);
  }

  /** Once half of the nodes hold the leader's last entry, and it is of the leader's own term, the commit
      rule picks it, and the whole log is committed. */
  lemma LastEntryCommits(s: NodeState, k: nat)
    requires WithinLog(s) && IsMajorityIndex(s, k) && s.commit <= |s.log|
    requires 2 * SupportCount(s, |s.log|) >= |s.matchIndex| + 1 && TermAt(s.log, |s.log|) == s.term
    ensures k == |s.log| && AdvanceCommit(s, k).commit == |s.log|
  {
    hide SupportCount, WithinLog;
    NoneBeyondLog(s);
    assert IsMajorityIndex(s, |s.log|);
    RaftNodes.MajorityIndexUnique(s, k, |s.log|);
  }

  // ---- One heartbeat exchange ----

  lemma LeaderFacts(c: Cluster, n: NodeId)
    requires ClusterInv(c) && n in c.nodes && c.nodes[n].role == Leader
    ensures var s := c.nodes[n];
            && Leads(c.view, n, s.term) && WithinLog(s) && s.matchIndex.Keys == c.nodes.Keys - {n} && s.term > 0
            && forall p :: Acked(c.view, p, s.term) <= |s.log|
  {
    hide Network, Completeness, Rooted, Quorum;
    var s := c.nodes[n];
    assert Tied(c, n) && RoleOk(c, n) && LeaderOk(c, n);
    LeaderTermPositive(c, n);
    LeaderHoldsLeaderLog(c, n);
    forall p ensures Acked(c.view, p, s.term) <= |s.log| {
      assert AckOk(c.view, At(s.term, p));
    }
  }

  lemma BuiltReach(s: NodeState, p: NodeId)
    requires p in s.nextIndex && 1 <= s.nextIndex[p] <= |s.log| + 1
    ensures var req := BuildAppendEntries(s, p);
            && req.leaderId == s.id && req.term == s.term && req.prevLogIndex == s.nextIndex[p] - 1
            && req.prevLogIndex + |req.entries| == |s.log|
  {
  }

  /** A heartbeat is sent, delivered and answered, and the answer is handled. */
  lemma DoExchange(c0: Cluster, c: Cluster, q: set<NodeId>, n: NodeId, p: NodeId) returns (d: Cluster, k: nat)
    requires Going(c0, c, q) && Ruling(c, q, n) && p in q && p != n
    ensures var req := BuildAppendEntries(c.nodes[n], p);
            var e := Exchange(Pair(c.nodes[n], c.nodes[p]), k);
            && Going(c0, d, q) && d.nodes == c.nodes[p := e.follower][n := e.leader]
            && (OnAppendEntries(c.nodes[p], req).1.success ==> IsMajorityIndex(RecordMatch(c.nodes[n], p, req), k))
  {
    hide Reaches, ClusterInv, IsMajorityIndex, BuildAppendEntries, OnAppendEntries, RecordMatch, AdvanceCommit,
      Bump, Accept;
    var s := c.nodes[n];
    NodeFacts(c, n);
    NodeFacts(c, p);
    NextNow(c, n, p);
    BuiltReach(s, p);
    Take(c0, c, q, SendHeartbeat(n, p));
    var c1 := Next(c, SendHeartbeat(n, p));
    var m := AppendMsg(Heartbeat, BuildAppendEntries(s, p));
    LeaderFacts(c, n);
    var c2 := DoDeliver(c0, c1, q, p, m);
    var reply := AppendReply(p, m, OnAppendEntries(c.nodes[p], m.req).1);
    ReplyInTerm(c.nodes[p], m.req);
    k := DoHandle(c0, c2, q, n, reply);
    d := Next(c2, HandleHeartbeatReply(n, reply, k));
  }

  lemma ReplyInTerm(s: NodeState, req: AppendEntriesReq)
    requires req.term >= s.term
    ensures var (s', resp) := OnAppendEntries(s, req); resp.term == req.term && s'.id == s.id
  {
  }

  lemma DoHandle(c0: Cluster, c: Cluster, q: set<NodeId>, n: NodeId, reply: AppendReply) returns (k: nat)
    requires Going(c0, c, q) && n in q && c.nodes[n].role == Leader && reply in c.replies
    requires reply.msg.kind == Heartbeat && reply.msg.req.leaderId == n && reply.peer in q && reply.peer != n
    requires var s, req := c.nodes[n], reply.msg.req;
             req.term == s.term == reply.resp.term && req.prevLogIndex + |req.entries| == |s.log|
    ensures var s1 := RecordMatch(c.nodes[n], reply.peer, reply.msg.req);
            && Possible(c, HandleHeartbeatReply(n, reply, k))
            && Going(c0, Next(c, HandleHeartbeatReply(n, reply, k)), q)
            && (reply.resp.success ==> IsMajorityIndex(s1, k))
  {
    hide Reaches, ClusterInv, IsMajorityIndex, AdvanceCommit, Next;
    LeaderFacts(c, n);
    NodeFacts(c, n);
    AnswerHolds(c, reply);
    k := SomeMajorityIndex(RecordMatch(c.nodes[n], reply.peer, reply.msg.req));
    Take(c0, c, q, HandleHeartbeatReply(n, reply, k));
  }

  lemma AnswerHolds(c: Cluster, reply: AppendReply)
    requires ClusterInv(c) && reply in c.replies
    ensures var req := reply.msg.req;
            reply.resp.success && req.entries != [] ==>
              req.prevLogIndex + |req.entries| <= Acked(c.view, reply.peer, req.term)
  {
    hide Inv, Nodes, MsgOk;
    assert ReplyOk(c.view, reply);
  }

  // ---- Bringing one follower up to date ----

  /** Node `p` follows `n`, has its log, and `n` knows. */
  ghost predicate Follows(c: Cluster, n: NodeId, p: NodeId) {
    && n in c.nodes && p in c.nodes && p in c.nodes[n].matchIndex && p in c.nodes[n].nextIndex
    && var l, f := c.nodes[n], c.nodes[p];
    && f.log == l.log && f.term == l.term && f.role == Follower && f.leaderId == Some(n)
    && l.matchIndex[p] == |l.log| && l.nextIndex[p] == |l.log| + 1
  }

  /** The commit index is at least where the commit rule would move it. */
  ghost predicate RuleTaken(s: NodeState) {
    forall k: nat :: IsMajorityIndex(s, k) && TermAt(s.log, k) == s.term ==> k <= s.commit
  }

  /** The same leader, but for its commit index and what it knows of `p`. */
  ghost predicate SameLeader(s: NodeState, s': NodeState, p: NodeId) {
    && s' == s.(commit := s'.commit, matchIndex := s'.matchIndex, nextIndex := s'.nextIndex)
    && s'.matchIndex.Keys == s.matchIndex.Keys && s'.nextIndex.Keys == s.nextIndex.Keys
    && (forall x :: x in s.matchIndex && x != p ==> s'.matchIndex[x] == s.matchIndex[x])
    && (forall x :: x in s.nextIndex && x != p ==> s'.nextIndex[x] == s.nextIndex[x])
  }

  lemma AcceptedExchange(p: Pair, k: nat)
    requires Ready(p) && Matches(p.follower.log, BuildAppendEntries(p.leader, p.follower.id))
    requires NextFor(p.leader, p.follower.id) <= |p.leader.log|
    ensures var q, s := Exchange(p, k), p.leader;
            && q.follower.log == s.log && q.follower.term == s.term && q.follower.role == Follower
            && q.follower.leaderId == Some(s.id)
            && q.leader == AdvanceCommit(s.(matchIndex := s.matchIndex[p.follower.id := |s.log|],
                                            nextIndex := s.nextIndex[p.follower.id := |s.log| + 1]), k)
            && OnAppendEntries(p.follower, BuildAppendEntries(s, p.follower.id)).1.success
            && RecordMatch(s, p.follower.id, BuildAppendEntries(s, p.follower.id)) ==
               s.(matchIndex := s.matchIndex[p.follower.id := |s.log|],
                  nextIndex := s.nextIndex[p.follower.id := |s.log| + 1])
  {
    hide Matching, AdvanceCommit;
    AcceptedLogs(p);
    MatchesAgree(p);
    var prev := NextFor(p.leader, p.follower.id) - 1;
    assert p.leader.log == p.leader.log[..prev] + p.leader.log[prev..];
  }

  lemma RefusedExchange(p: Pair, k: nat)
    requires Ready(p) && !Matches(p.follower.log, BuildAppendEntries(p.leader, p.follower.id))
    ensures var q, s := Exchange(p, k), p.leader;
            && q.follower.log == p.follower.log && q.follower.term == s.term && s.nextIndex[p.follower.id] > 1
            && q.leader == s.(nextIndex := s.nextIndex[p.follower.id := s.nextIndex[p.follower.id] - 1])
  {
    hide Matching;
  }

  lemma AdvanceTakesRule(s: NodeState, k: nat)
    requires IsMajorityIndex(s, k)
    ensures RuleTaken(AdvanceCommit(s, k))
  {
    hide SupportCount;
    var s' := AdvanceCommit(s, k);
    forall j: nat | IsMajorityIndex(s', j) ensures j == k {
      SameSupport(s, s', j);
      RaftNodes.MajorityIndexUnique(s, j, k);
    }
  }

  lemma SameSupport(s: NodeState, s': NodeState, j: nat)
    requires s'.matchIndex == s.matchIndex && s'.log == s.log
    ensures IsMajorityIndex(s', j) <==> IsMajorityIndex(s, j)
  {
    assert Supporters(s', j) == Supporters(s, j) && Supporters(s', j + 1) == Supporters(s, j + 1);
  }

  /** Heartbeats to `p` until it has the leader's log. */
  lemma {:induction false} DoRepair(c0: Cluster, c: Cluster, q: set<NodeId>, n: NodeId, p: NodeId) returns (d: Cluster)
    requires Going(c0, c, q) && Ruling(c, q, n) && p in q && p != n
    requires p in c.nodes[n].nextIndex && c.nodes[n].nextIndex[p] <= |c.nodes[n].log|
    ensures Going(c0, d, q) && Ruling(d, q, n) && Follows(d, n, p)
    ensures d.nodes == c.nodes[p := d.nodes[p]][n := d.nodes[n]] && SameLeader(c.nodes[n], d.nodes[n], p)
    ensures RuleTaken(d.nodes[n])
    decreases if p in c.nodes[n].nextIndex then c.nodes[n].nextIndex[p] else 0
  {
    hide Reaches, ClusterInv, IsMajorityIndex, BuildAppendEntries, OnAppendEntries, RecordMatch, AdvanceCommit,
      Exchange, Matches, Matching, RuleTaken;
    var s, pair := c.nodes[n], Pair(c.nodes[n], c.nodes[p]);
    NodeFacts(c, n);
    NodeFacts(c, p);
    LeaderFacts(c, n);
    ReadyNow(c, n, p);
    var k;
    d, k := DoExchange(c0, c, q, n, p);
    if Matches(c.nodes[p].log, BuildAppendEntries(s, p)) {
      Repaired(c, d, n, p, k);
    } else {
      RefusedExchange(pair, k);
      d := DoRepair(c0, d, q, n, p);
    }
  }

  lemma Repaired(c: Cluster, d: Cluster, n: NodeId, p: NodeId, k: nat)
    requires n in c.nodes && p in c.nodes && p != n && c.nodes[n].id == n && c.nodes[p].id == p
    requires var s, pair := c.nodes[n], Pair(c.nodes[n], c.nodes[p]);
             var req := BuildAppendEntries(s, p);
             && Ready(pair) && NextFor(s, p) <= |s.log| && Matches(c.nodes[p].log, req) && p in s.matchIndex
             && d.nodes == c.nodes[p := Exchange(pair, k).follower][n := Exchange(pair, k).leader]
             && (OnAppendEntries(c.nodes[p], req).1.success ==> IsMajorityIndex(RecordMatch(s, p, req), k))
    ensures Follows(d, n, p) && SameLeader(c.nodes[n], d.nodes[n], p) && RuleTaken(d.nodes[n])
  {
    hide IsMajorityIndex, BuildAppendEntries, OnAppendEntries, RecordMatch, AdvanceCommit, Exchange, Matches, Matching,
      RuleTaken;
    var s := c.nodes[n];
    AcceptedExchange(Pair(s, c.nodes[p]), k);
    var s1 := RecordMatch(s, p, BuildAppendEntries(s, p));
    AdvanceTakesRule(s1, k);
    AdvancedFields(s1, k);
  }

  lemma AdvancedFields(s: NodeState, k: nat)
    ensures AdvanceCommit(s, k) == s.(commit := AdvanceCommit(s, k).commit)
  {
  }

  /** ... and so on for all of `rest`. */
  lemma {:induction false} DoRepairAll(c0: Cluster, c: Cluster, q: set<NodeId>, n: NodeId, rest: set<NodeId>)
    returns (d: Cluster)
    requires Going(c0, c, q) && Ruling(c, q, n) && rest <= q && n !in rest
    requires forall p :: p in rest ==> p in c.nodes[n].nextIndex && c.nodes[n].nextIndex[p] <= |c.nodes[n].log|
    requires forall p :: p in q - rest - {n} ==> Follows(c, n, p)
    ensures Going(c0, d, q) && Ruling(d, q, n) && forall p :: p in q - {n} ==> Follows(d, n, p)
    ensures d.nodes[n].log == c.nodes[n].log && d.nodes[n].term == c.nodes[n].term
            && d.nodes[n].leaderId == c.nodes[n].leaderId
    ensures |rest| > 0 ==> RuleTaken(d.nodes[n])
    decreases |rest|
  {
    hide Reaches, ClusterInv, RuleTaken, Follows, SameLeader;
    d := c;
    if |rest| > 0 {
      var p := MemberOf(rest);
      d := DoRepair(c0, c, q, n, p);
      forall x | x in q && x !in rest - {p} && x != n ensures Follows(d, n, x) {
        if x != p {
          FollowsStays(c, d, n, p, x);
        }
      }
      RestStays(c.nodes[n], d.nodes[n], p);
      if |rest - {p}| > 0 {
        d := DoRepairAll(c0, d, q, n, rest - {p});
      }
    }
  }

  lemma FollowsStays(c: Cluster, d: Cluster, n: NodeId, p: NodeId, x: NodeId)
    requires Follows(c, n, x) && n in d.nodes && p in d.nodes && x != n && x != p
    requires d.nodes == c.nodes[p := d.nodes[p]][n := d.nodes[n]] && SameLeader(c.nodes[n], d.nodes[n], p)
    ensures Follows(d, n, x)
  {
  }

  lemma RestStays(s: NodeState, s': NodeState, p: NodeId)
    requires SameLeader(s, s', p)
    ensures s'.log == s.log && s'.term == s.term && s'.leaderId == s.leaderId && s'.nextIndex.Keys == s.nextIndex.Keys
    ensures forall x :: x in s.nextIndex && x != p ==> s'.nextIndex[x] == s.nextIndex[x]
  {
  }

  // ---- From a common log to a common map ----

  lemma DoPush(c0: Cluster, c: Cluster, q: set<NodeId>, n: NodeId, op: Op) returns (d: Cluster)
    requires Going(c0, c, q) && n in q && c.nodes[n].role == Leader
    ensures var s := c.nodes[n];
            && Going(c0, d, q) && d.nodes == c.nodes[n := s.(log := s.log + [Entry(s.term, op)])]
            && Pushed(n, Entry(s.term, op)) in d.pushed
  {
    hide Reaches, ClusterInv;
    NodeFacts(c, n);
    Take(c0, c, q, PushEntry(n, op));
    d := Next(c, PushEntry(n, op));
  }

  lemma AllCommitted(c: Cluster, q: set<NodeId>, n: NodeId)
    requires ClusterInv(c) && Quorum(c.nodes.Keys, q) && Ruling(c, q, n) && RuleTaken(c.nodes[n])
    requires forall p :: p in q - {n} ==> Follows(c, n, p)
    requires TermAt(c.nodes[n].log, |c.nodes[n].log|) == c.nodes[n].term
    ensures c.nodes[n].commit == |c.nodes[n].log|
  {
    hide ClusterInv, WithinLog;
    var s := c.nodes[n];
    NodeFacts(c, n);
    LeaderFacts(c, n);
    forall p | p in q - {n} ensures p in Supporters(s, |s.log|) {
      assert Follows(c, n, p);
    }
    SubsetSize(q - {n}, Supporters(s, |s.log|));
    assert |q - {n}| == |q| - 1 && |s.matchIndex| == |s.matchIndex.Keys| == |c.nodes.Keys| - 1;
    NoneBeyondLog(s);
    assert IsMajorityIndex(s, |s.log|);
  }

  /** A heartbeat without entries brings the commit index. */
  lemma IdleExchange(p: Pair, k: nat)
    requires Ready(p) && p.follower.log == p.leader.log && NextFor(p.leader, p.follower.id) == |p.leader.log| + 1
    requires p.follower.term == p.leader.term > 0 && p.follower.role == Follower
    requires p.follower.leaderId == Some(p.leader.id)
    requires p.leader.commit == |p.leader.log| >= p.follower.commit
    ensures Exchange(p, k) == Pair(p.leader, p.follower.(commit := |p.leader.log|))
  {
    hide Matching;
  }

  lemma DoSpread(c0: Cluster, c: Cluster, q: set<NodeId>, n: NodeId, p: NodeId) returns (d: Cluster)
    requires Going(c0, c, q) && Ruling(c, q, n) && p in q && p != n && Follows(c, n, p)
    requires c.nodes[n].commit == |c.nodes[n].log|
    ensures Going(c0, d, q) && d.nodes == c.nodes[p := c.nodes[p].(commit := |c.nodes[n].log|)]
  {
    hide Reaches, ClusterInv, IsMajorityIndex, BuildAppendEntries, OnAppendEntries, RecordMatch, Exchange, Matching;
    var k;
    NodeFacts(c, n);
    NodeFacts(c, p);
    LeaderFacts(c, n);
    ReadyNow(c, n, p);
    d, k := DoExchange(c0, c, q, n, p);
    IdleExchange(Pair(c.nodes[n], c.nodes[p]), k);
  }

  /** The apply loop of one node runs until nothing committed is left to apply. */
  lemma {:induction false} DoApply(c0: Cluster, c: Cluster, q: set<NodeId>, p: NodeId) returns (d: Cluster)
    requires Going(c0, c, q) && p in q
    ensures Going(c0, d, q) && p in d.nodes && d.nodes == c.nodes[p := d.nodes[p]]
    ensures var s := d.nodes[p];
            && s == c.nodes[p].(lastApplied := s.commit, store := s.store)
            && s.commit <= |s.log| && s.store == Fold(map[], Ops(s.log[..s.commit]))
    decreases c.nodes[p].commit - c.nodes[p].lastApplied
  {
    hide Reaches, ClusterInv, Apply, Fold, Ops;
    d := c;
    NodeFacts(c, p);
    if c.nodes[p].lastApplied < c.nodes[p].commit {
      Take(c0, c, q, ApplyEntry(p));
      d := Next(c, ApplyEntry(p));
      d := DoApply(c0, d, q, p);
    }
  }

  /** Node `p` has the log of leader `n`, all of it committed and applied, and knows who leads. */
  ghost predicate Settled(c: Cluster, n: NodeId, p: NodeId) {
    && n in c.nodes && p in c.nodes
    && var l, s := c.nodes[n], c.nodes[p];
    && s.log == l.log && s.commit == s.lastApplied == |s.log| && s.store == Fold(map[], Ops(s.log))
    && s.term == l.term && s.leaderId == Some(n) && s.role == if p == n then Leader else Follower
  }

  lemma DoSettle(c0: Cluster, c: Cluster, q: set<NodeId>, n: NodeId, p: NodeId) returns (d: Cluster)
    requires Going(c0, c, q) && Ruling(c, q, n) && p in q && c.nodes[n].commit == |c.nodes[n].log|
    requires p != n ==> Follows(c, n, p)
    requires c.nodes[n].leaderId == Some(n)
    ensures Going(c0, d, q) && Settled(d, n, p) && d.nodes == c.nodes[p := d.nodes[p]]
    ensures var s, s' := c.nodes[n], d.nodes[n]; s' == s.(lastApplied := s'.lastApplied, store := s'.store)
  {
    hide Reaches, ClusterInv, Fold, Ops;
    d := c;
    if p != n {
      d := DoSpread(c0, c, q, n, p);
    }
    d := DoApply(c0, d, q, p);
    assert d.nodes[p].log[..|d.nodes[p].log|] == d.nodes[p].log;
  }

  lemma {:induction false} DoSettleAll(c0: Cluster, c: Cluster, q: set<NodeId>, n: NodeId, rest: set<NodeId>)
    returns (d: Cluster)
    requires Going(c0, c, q) && Ruling(c, q, n) && rest <= q && c.nodes[n].commit == |c.nodes[n].log|
    requires c.nodes[n].leaderId == Some(n)
    requires forall p :: p in rest && p != n ==> Follows(c, n, p)
    requires forall p :: p in q - rest ==> Settled(c, n, p)
    ensures Going(c0, d, q) && (forall p :: p in q ==> Settled(d, n, p)) && d.nodes[n].log == c.nodes[n].log
    ensures Ruling(d, q, n) && d.nodes[n].term == c.nodes[n].term
    ensures d.nodes[n].matchIndex == c.nodes[n].matchIndex && d.nodes[n].nextIndex == c.nodes[n].nextIndex
    decreases |rest|
  {
    hide Reaches, ClusterInv, Fold, Ops, Settled, Follows;
    d := c;
    if |rest| > 0 {
      var p := MemberOf(rest);
      d := DoSettle(c0, c, q, n, p);
      forall x | x in q && x !in rest - {p} ensures Settled(d, n, x) {
        if x != p {
          SettledStays(c, d, n, p, x);
        }
      }
      forall x | x in rest - {p} && x != n ensures Follows(d, n, x) {
        FollowsOn(c, d, n, p, x);
      }
      SettledTerm(d, n, p);
      d := DoSettleAll(c0, d, q, n, rest - {p});
    }
  }

  lemma SettledTerm(c: Cluster, n: NodeId, p: NodeId)
    requires Settled(c, n, p)
    ensures c.nodes[p].term == c.nodes[n].term
  {
  }

  lemma SettledStays(c: Cluster, d: Cluster, n: NodeId, p: NodeId, x: NodeId)
    requires Settled(c, n, x) && n in d.nodes && p in d.nodes && x != p && d.nodes == c.nodes[p := d.nodes[p]]
    requires var s, s' := c.nodes[n], d.nodes[n]; s' == s.(lastApplied := s'.lastApplied, store := s'.store)
    ensures Settled(d, n, x)
  {
    hide Fold, Ops;
  }

  lemma FollowsOn(c: Cluster, d: Cluster, n: NodeId, p: NodeId, x: NodeId)
    requires Follows(c, n, x) && n in d.nodes && p in d.nodes && x != p && d.nodes == c.nodes[p := d.nodes[p]] && x != n
    requires var s, s' := c.nodes[n], d.nodes[n]; s' == s.(lastApplied := s'.lastApplied, store := s'.store)
    ensures Follows(d, n, x)
  {
  }

  // ---- The theorem ----

  /** All of `q` agree, under leader `n`, on a log that ends with `op`. */
  ghost predicate Converged(c: Cluster, q: set<NodeId>, n: NodeId, op: Op) {
    && Ruling(c, q, n) && (forall p :: p in q ==> Settled(c, n, p))
    && c.nodes[n].log != [] && c.nodes[n].log[|c.nodes[n].log| - 1] == Entry(c.nodes[n].term, op)
  }

  lemma DoReplicate(c0: Cluster, c: Cluster, q: set<NodeId>, n: NodeId, op: Op) returns (d: Cluster)
    requires Going(c0, c, q) && Ruling(c, q, n) && c.nodes[n].leaderId == Some(n)
    requires Quorum(c.nodes.Keys, q) && |c.nodes| >= 2
    ensures Going(c0, d, q) && Converged(d, q, n, op)
  {
    hide Reaches, ClusterInv, RuleTaken, Settled, Follows;
    d := DoPush(c0, c, q, n, op);
    forall p | p in q && p != n
      ensures p in d.nodes[n].nextIndex && d.nodes[n].nextIndex[p] <= |d.nodes[n].log|
    {
      NextNow(c, n, p);
    }
    assert |q - {n}| == |q| - 1 && |c.nodes.Keys| == |c.nodes|;
    d := DoRepairAll(c0, d, q, n, q - {n});
    AllCommitted(d, q, n);
    d := DoSettleAll(c0, d, q, n, q);
  }

  /** Every strict majority of a cluster of two or more can, from any state of any run and on its own,
      agree on a log with any operation as its last entry, and apply all of it. */
  lemma MajorityConverges(b: seq<Cluster>, q: set<NodeId>, op: Op) returns (b': seq<Cluster>, n: NodeId)
    requires Run(b) && Quorum(b[|b| - 1].nodes.Keys, q) && |b[|b| - 1].nodes| >= 2
    ensures Run(b') && b <= b' && Path(b'[|b| - 1..], q) && Converged(b'[|b'| - 1], q, n, op)
  {
    hide Init, StepAt, AnyRun, ClusterInv, Quorum, Converged, PathAt, LeadersNamed;
    var c := b[|b| - 1];
    RunInv(b, |b| - 1);
    RunIsAnyRun(b);
    LeaderHints(b, |b| - 1);
    var d;
    d, n := DoElect(c, q);
    d := DoReplicate(c, d, q, n, op);
    var tail :| Path(tail, q) && tail[0] == c && tail[|tail| - 1] == d;
    b' := b + tail[1..];
    Joins(b, tail, q);
  }

  lemma Joins(b: seq<Cluster>, tail: seq<Cluster>, q: set<NodeId>)
    requires Run(b) && Path(tail, q) && tail[0] == b[|b| - 1]
    ensures Run(b + tail[1..]) && (b + tail[1..])[|b| - 1..] == tail
  {
    hide Possible, Safely, Next, Init;
    var longer := b + tail[1..];
    assert longer[|b| - 1..] == tail;
    forall i ensures StepAt(longer, i) {
      assert StepAt(b, i) && PathAt(tail, i - (|b| - 1), q);
      if 0 <= i < |b| - 1 {
        assert longer[i] == b[i] && longer[i + 1] == b[i + 1];
      } else if |b| - 1 <= i < |longer| - 1 {
        assert longer[i] == tail[i - (|b| - 1)] && longer[i + 1] == tail[i - (|b| - 1) + 1];
      }
    }
  }

  // ---- A proposal is acknowledged ----

  /** Node `p` is asked to take the entry of a proposal, takes it, and the answer is counted. */
  lemma DoAck(c0: Cluster, c: Cluster, q: set<NodeId>, n: NodeId, p: NodeId, req: AppendEntriesReq)
    returns (d: Cluster)
    requires Going(c0, c, q) && Proposing(c, q, n, req) && p in q && p != n && Willing(c, p, req)
    ensures var acks := c.open[req] + {p};
            && Going(c0, d, q) && p in d.nodes && d.nodes == c.nodes[p := d.nodes[p]] && c.msgs <= d.msgs
            && (if |acks| >= Needed(c)
                then Acknowledged(req.term, req.prevLogIndex + 1, req.entries[0]) in d.acknowledged
                else req in d.open && d.open[req] == acks)
  {
    hide Reaches, ClusterInv, OnAppendEntries, Matches;
    LeaderFacts(c, n);
    var m := AppendMsg(Proposal, req);
    d := DoDeliver(c0, c, q, p, m);
    TakesEntry(c.nodes[p], req);
    d := DoCount(c0, d, q, n, AppendReply(p, m, AppendEntriesResp(req.term, true)));
  }

  lemma DoCount(c0: Cluster, c: Cluster, q: set<NodeId>, n: NodeId, reply: AppendReply) returns (d: Cluster)
    requires Going(c0, c, q) && Proposing(c, q, n, reply.msg.req) && reply in c.replies && reply.msg.kind == Proposal
    requires reply.resp == AppendEntriesResp(reply.msg.req.term, true)
    ensures var req := reply.msg.req;
            var acks := c.open[req] + {reply.peer};
            && Going(c0, d, q) && d.nodes == c.nodes && d.msgs == c.msgs
            && (if |acks| >= Needed(c)
                then Acknowledged(req.term, req.prevLogIndex + 1, req.entries[0]) in d.acknowledged
                else req in d.open && d.open[req] == acks)
  {
    hide Reaches, ClusterInv;
    NodeFacts(c, n);
    Take(c0, c, q, CountAck(n, reply));
    d := Next(c, CountAck(n, reply));
  }

  lemma TakesEntry(s: NodeState, req: AppendEntriesReq)
    requires req.term == s.term && Matches(s.log, req)
    ensures OnAppendEntries(s, req).1 == AppendEntriesResp(req.term, true)
  {
  }

  /** Leader `n` has sent the request of a proposal and counts the answers. */
  ghost predicate Proposing(c: Cluster, q: set<NodeId>, n: NodeId, req: AppendEntriesReq) {
    && n in q && q <= c.nodes.Keys && c.nodes[n].role == Leader && c.nodes[n].term == req.term
    && req.leaderId == n && |req.entries| == 1 && req.prevLogIndex + 1 == |c.nodes[n].log|
    && AppendMsg(Proposal, req) in c.msgs && req in c.open
  }

  ghost predicate Willing(c: Cluster, p: NodeId, req: AppendEntriesReq) {
    p in c.nodes && c.nodes[p].term == req.term && Matches(c.nodes[p].log, req)
  }

  lemma {:induction false} DoAckAll(c0: Cluster, c: Cluster, q: set<NodeId>, n: NodeId, req: AppendEntriesReq,
                                    rest: set<NodeId>) returns (d: Cluster)
    requires Going(c0, c, q) && Proposing(c, q, n, req) && rest <= q && n !in rest
    requires c.open[req] !! rest && |c.open[req]| < Needed(c) <= |c.open[req]| + |rest|
    requires forall p :: p in rest ==> Willing(c, p, req)
    ensures Going(c0, d, q) && d.nodes[n] == c.nodes[n]
    ensures Acknowledged(req.term, req.prevLogIndex + 1, req.entries[0]) in d.acknowledged
    decreases |rest|
  {
    hide Reaches, ClusterInv, Matches;
    var p := MemberOf(rest);
    d := DoAck(c0, c, q, n, p, req);
    assert |c.open[req] + {p}| == |c.open[req]| + 1;
    if |c.open[req] + {p}| < Needed(c) {
      d := DoAckAll(c0, d, q, n, req, rest - {p});
    }
  }

  lemma DoPropose(c0: Cluster, c: Cluster, q: set<NodeId>, n: NodeId, op: Op) returns (d: Cluster)
    requires Going(c0, c, q) && Ruling(c, q, n) && (forall p :: p in q ==> Settled(c, n, p))
    requires Quorum(c.nodes.Keys, q) && |c.nodes| >= 2
    ensures Going(c0, d, q) && d.nodes[n].role == Leader && AckedLast(d, n, op)
  {
    hide Reaches, ClusterInv, Settled;
    var s := c.nodes[n];
    var e := Entry(s.term, op);
    var c1 := DoPush(c0, c, q, n, op);
    NodeFacts(c1, n);
    Take(c0, c1, q, SendEntry(n, e));
    var c2 := Next(c1, SendEntry(n, e));
    var req := ProposalRequest(c1.nodes[n], e);
    forall p | p in q && p != n ensures Willing(c2, p, req) {
      SettledIsWilling(c, c2, n, p, e);
    }
    assert |{n}| == 1 && |q - {n}| == |q| - 1 && |c.nodes.Keys| == |c.nodes| == |c2.nodes|;
    d := DoAckAll(c0, c2, q, n, req, q - {n});
  }

  /** The leader's last entry is `op`, and its proposal returned true. */
  ghost predicate AckedLast(c: Cluster, n: NodeId, op: Op) {
    n in c.nodes && Acknowledged(c.nodes[n].term, |c.nodes[n].log|, Entry(c.nodes[n].term, op)) in c.acknowledged
  }

  lemma SettledIsWilling(c: Cluster, d: Cluster, n: NodeId, p: NodeId, e: Entry)
    requires Settled(c, n, p) && p != n && c.nodes[n].id == n && p in d.nodes && d.nodes[p] == c.nodes[p]
    ensures Willing(d, p, ProposalRequest(c.nodes[n].(log := c.nodes[n].log + [e]), e))
  {
    hide Fold, Ops;
  }

  /** ... and then have the next proposal acknowledged. */
  lemma MajorityAcknowledges(b: seq<Cluster>, q: set<NodeId>, op: Op) returns (b': seq<Cluster>, n: NodeId)
    requires Run(b) && Quorum(b[|b| - 1].nodes.Keys, q) && |b[|b| - 1].nodes| >= 2
    ensures Run(b') && b <= b' && Path(b'[|b| - 1..], q)
    ensures var d := b'[|b'| - 1]; n in d.nodes && LeaderAt(b', |b'| - 1, n, d.nodes[n].term) && AckedLast(d, n, op)
  {
    hide Init, StepAt, AnyRun, ClusterInv, Quorum, Settled, PathAt, LeadersNamed, AckedLast;
    var c := b[|b| - 1];
    RunInv(b, |b| - 1);
    RunIsAnyRun(b);
    LeaderHints(b, |b| - 1);
    var d;
    d, n := DoElect(c, q);
    d := DoReplicate(c, d, q, n, op);
    d := DoPropose(c, d, q, n, op);
    var tail :| Path(tail, q) && tail[0] == c && tail[|tail| - 1] == d;
    b' := b + tail[1..];
    Joins(b, tail, q);
  }

  // ---- A cluster of one ----

  /** The only node has nobody to ask for a vote. */
  ghost predicate Alone(c: Cluster, x: NodeId) {
    && c.nodes.Keys == {x} && c.nodes[x].id == x && c.nodes[x].role != Leader
    && c.voteReplies == {} && (forall r :: r in c.voteReqs ==> r.candidateId == x)
  }

  /** Node `x` does not lead, and nothing about votes changed. */
  ghost predicate Quiet(c: Cluster, d: Cluster, x: NodeId) {
    && d.nodes.Keys == c.nodes.Keys && x in d.nodes && d.nodes[x].id == c.nodes[x].id && d.nodes[x].role != Leader
    && d.voteReqs == c.voteReqs && d.voteReplies == c.voteReplies
  }

  lemma QuietRequest(c: Cluster, x: NodeId, m: AppendMsg)
    requires x in c.nodes && x in c.view.term && c.nodes[x].role != Leader
    ensures Quiet(c, AfterAppendRequest(c, x, m), x)
  {
    hide Bump, Accept, Matches, Spliced, TermAt;
  }

  lemma QuietReply(c: Cluster, x: NodeId, reply: AppendReply, k: nat)
    requires x in c.nodes && c.nodes[x].role != Leader
    ensures Quiet(c, AfterHeartbeatReply(c, x, reply, k), x)
    ensures reply.msg.req in c.open ==> Quiet(c, AfterAck(c, x, reply), x)
  {
    hide Bump, TermAt;
  }

  lemma AloneKept(c: Cluster, x: NodeId, step: Step)
    requires Alone(c, x) && Possible(c, step)
    ensures Alone(Next(c, step), x)
  {
    hide Bump, Stand, Append, BuildAppendEntries, ClosingRequest, ProposalRequest, IsMajorityIndex, Apply, RecordMatch,
      AfterVoteRequest, AfterVoteReply, AfterAppendRequest, AfterHeartbeatReply, AfterAck;
    var d := Next(c, step);
    assert step.n == x;
    match step {
      case DeliverAppend(_, m) => QuietRequest(c, x, m);
      case HandleHeartbeatReply(_, reply, k) => QuietReply(c, x, reply, k);
      case CountAck(_, reply) => QuietReply(c, x, reply, 0);
      case _ =>
    }
    assert d.nodes.Keys == {x} by {
      assert d.nodes.Keys == c.nodes.Keys + {x};
    }
  }

  /** A cluster of one node never has a leader, although one vote would be a majority. */
  lemma {:induction false} LonerNeverLeads(b: seq<Cluster>, i: nat, x: NodeId)
    requires AnyRun(b) && i < |b| && b[0].nodes.Keys == {x}
    ensures Alone(b[i], x)
  {
    hide Possible, Next, PeersOf;
    if i > 0 {
      LonerNeverLeads(b, i - 1, x);
      assert AnyStepAt(b, i - 1);
      var step :| Possible(b[i - 1], step) && b[i] == Next(b[i - 1], step);
      AloneKept(b[i - 1], x, step);
    }
  }
}
