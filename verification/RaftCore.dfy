/** The argument at the centre of the protocol, stripped of roles, timers and messages: which
    entries can still be chosen, and why every later leader holds them.

    A `View` keeps, besides each node's term and log, what happened so far: the leader of each
    term and the log it built (`leader`, `leaderLog`), the log a node stood for election with
    (`standing`), every vote ever cast (`vote`), and how much of a term's leader log each node
    accepted while in that term (`acked`).  Six actions change a view.  `Inv` is kept by all six. */
module RaftCore {
  import opened RaftTypes
  import opened Quorums

  /** A node in a term. */
  datatype At = At(term: nat, node: NodeId)

  datatype View = View(
    members: set<NodeId>,
    term: map<NodeId, nat>,
    log: map<NodeId, Log>,
    leader: map<nat, NodeId>,
    leaderLog: map<nat, Log>,
    standing: map<At, Log>,
    vote: map<At, NodeId>,
    acked: map<At, nat>)

  function Acked(v: View, n: NodeId, t: nat): nat {
    if At(t, n) in v.acked then v.acked[At(t, n)] else 0
  }

  /** Index `k` of term `t`'s leader log is an entry that leader itself created. */
  ghost predicate Slot(v: View, t: nat, k: nat) {
    t in v.leaderLog && 1 <= k <= |v.leaderLog[t]| && v.leaderLog[t][k - 1].term == t
  }

  /** The leader log of term `t` up to index `k`. */
  ghost function Chosen(v: View, t: nat, k: nat): Log
    requires Slot(v, t, k)
  {
    v.leaderLog[t][..k]
  }

  ghost function AckedBy(v: View, t: nat, k: nat): set<NodeId> {
    set n | n in v.members && Acked(v, n, t) >= k
  }

  /** Nodes that have left term `t` without accepting index `k` of it, and so never will. */
  ghost function Blocked(v: View, t: nat, k: nat): set<NodeId>
    requires v.term.Keys == v.members
  {
    set n | n in v.members && v.term[n] > t && Acked(v, n, t) < k
  }

  ghost predicate Choosable(v: View, t: nat, k: nat)
    requires v.term.Keys == v.members
  {
    !Quorum(v.members, Blocked(v, t, k))
  }

  /** Half of the nodes accepted index `k` of term `t` while in term `t`.  Half is enough: a later leader
      needs the votes of a strict majority, and one of them is among that half. */
  ghost predicate Committed(v: View, t: nat, k: nat) {
    Slot(v, t, k) && Half(v.members, AckedBy(v, t, k))
  }

  ghost predicate Leads(v: View, n: NodeId, t: nat) {
    t in v.leader && v.leader[t] == n
  }

  /** How long the log was that the leader of term `t` stood with. */
  ghost function Stood(v: View, t: nat): nat {
    if t in v.leader && At(t, v.leader[t]) in v.standing then |v.standing[At(t, v.leader[t])]| else 0
  }

  ghost function Voters(v: View, t: nat, c: NodeId): set<NodeId> {
    set n | n in v.members && At(t, n) in v.vote && v.vote[At(t, n)] == c
  }

  /** Every entry stands where, and after what, its creating leader put it. */
  ghost predicate Rooted(v: View, log: Log) {
    forall i :: 0 <= i < |log| ==>
      var t := log[i].term;
      t in v.leaderLog && i < |v.leaderLog[t]| && log[..i + 1] == v.leaderLog[t][..i + 1]
  }

  ghost predicate Ascending(log: Log) {
    forall i, j :: 0 <= i <= j < |log| ==> log[i].term <= log[j].term
  }

  ghost predicate Below(log: Log, t: nat) {
    forall i :: 0 <= i < |log| ==> log[i].term < t
  }

  ghost predicate Sound(v: View, log: Log) {
    Rooted(v, log) && Ascending(log)
  }

  // ---- The invariant: one predicate per clause, each about one node, term or vote ----

  ghost predicate Shape(v: View) {
    && v.term.Keys == v.members && v.log.Keys == v.members
    && v.leader.Keys == v.leaderLog.Keys
    && (forall t :: t in v.leader ==> v.leader[t] in v.members && At(t, v.leader[t]) in v.standing)
  }

  ghost predicate NodeLogOk(v: View, n: NodeId)
    requires Shape(v)
  {
    n in v.members ==> Sound(v, v.log[n]) && Below(v.log[n], v.term[n] + 1)
  }

  ghost predicate StandingOk(v: View, p: At)
    requires Shape(v)
  {
    p in v.standing ==>
      p.node in v.members && v.term[p.node] >= p.term >= 1 && Sound(v, v.standing[p]) && Below(v.standing[p], p.term)
  }

  /** A leader log is what its leader stood with, followed by entries of its own term; the leader
      was voted for by a majority and, while in the term, holds exactly that log. */
  ghost predicate LeaderLogOk(v: View, t: nat)
    requires Shape(v)
  {
    t in v.leaderLog ==>
      var n := v.leader[t];
      && Sound(v, v.leaderLog[t])
      && v.standing[At(t, n)] <= v.leaderLog[t]
      && (forall i :: |v.standing[At(t, n)]| <= i < |v.leaderLog[t]| ==> v.leaderLog[t][i].term == t)
      && v.term[n] >= t
      && (v.term[n] == t ==> v.log[n] == v.leaderLog[t])
      && Acked(v, n, t) == |v.leaderLog[t]|
      && Quorum(v.members, Voters(v, t, n))
  }

  ghost predicate VoteOk(v: View, p: At)
    requires Shape(v)
  {
    p in v.vote ==> p.node in v.members && v.term[p.node] >= p.term && At(p.term, v.vote[p]) in v.standing
  }

  ghost predicate AckOk(v: View, p: At)
    requires Shape(v)
  {
    p in v.acked ==>
      p.node in v.members && v.term[p.node] >= p.term && p.term in v.leaderLog && v.acked[p] <= |v.leaderLog[p.term]|
  }

  /** A node accepted every entry of its own term that it holds. */
  ghost predicate OwnTermOk(v: View, n: NodeId)
    requires Shape(v)
  {
    n in v.members ==>
      forall i :: 0 <= i < |v.log[n]| && v.log[n][i].term == v.term[n] ==> i < Acked(v, n, v.term[n])
  }

  /** An entry its leader created and that a majority may still accept. */
  ghost predicate Live(v: View, t: nat, k: nat)
    requires Shape(v)
  {
    Slot(v, t, k) && Choosable(v, t, k)
  }

  /** What is live in an earlier term, the leader of a later term stood with. */
  ghost predicate HeldByLeader(v: View, t: nat, k: nat, t': nat)
    requires Shape(v)
  {
    Live(v, t, k) && t < t' && t' in v.leaderLog ==> Chosen(v, t, k) <= v.standing[At(t', v.leader[t'])]
  }

  /** What a node accepted and is live, it still holds. */
  ghost predicate HeldByNode(v: View, t: nat, k: nat, n: NodeId)
    requires Shape(v)
  {
    Live(v, t, k) && n in v.members && Acked(v, n, t) >= k ==> Chosen(v, t, k) <= v.log[n]
  }

  /** ... and whoever got its vote in a later term stood with it. */
  ghost predicate HeldByCandidate(v: View, t: nat, k: nat, p: At)
    requires Shape(v)
  {
    Live(v, t, k) && t < p.term && p in v.vote && At(p.term, v.vote[p]) in v.standing && Acked(v, p.node, t) >= k ==>
      Chosen(v, t, k) <= v.standing[At(p.term, v.vote[p])]
  }

  ghost predicate Structure(v: View) {
    && Shape(v)
    && (forall n :: NodeLogOk(v, n))
    && (forall p :: StandingOk(v, p))
    && (forall t :: LeaderLogOk(v, t))
    && (forall p :: VoteOk(v, p))
    && (forall p :: AckOk(v, p))
    && (forall n :: OwnTermOk(v, n))
  }

  ghost predicate Completeness(v: View)
    requires Shape(v)
  {
    && (forall t: nat, k: nat, t': nat :: HeldByLeader(v, t, k, t'))
    && (forall t: nat, k: nat, n: NodeId :: HeldByNode(v, t, k, n))
    && (forall t: nat, k: nat, p: At :: HeldByCandidate(v, t, k, p))
  }

  ghost predicate Inv(v: View) {
    Structure(v) && Completeness(v)
  }

  // ---- The six actions ----

  function Initial(members: set<NodeId>): View {
    View(members, map n | n in members :: 0, map n | n in members :: [], map[], map[], map[], map[], map[])
  }

  function Bump(v: View, n: NodeId, t: nat): View {
    v.(term := v.term[n := t])
  }

  function Stand(v: View, n: NodeId): View
    requires n in v.term && n in v.log
  {
    var t := v.term[n] + 1;
    v.(term := v.term[n := t], standing := v.standing[At(t, n) := v.log[n]], vote := v.vote[At(t, n) := n])
  }

  function Vote(v: View, n: NodeId, c: NodeId): View
    requires n in v.term
  {
    v.(vote := v.vote[At(v.term[n], n) := c])
  }

  ghost predicate CanVote(v: View, n: NodeId, c: NodeId) {
    && n in v.members && n in v.term && n in v.log
    && At(v.term[n], c) in v.standing
    && (At(v.term[n], n) in v.vote ==> v.vote[At(v.term[n], n)] == c)
    && var s := v.standing[At(v.term[n], c)]; UpToDate(|s|, LastTerm(s), v.log[n])
  }

  function Elect(v: View, n: NodeId): View
    requires n in v.term && n in v.log
  {
    var t := v.term[n];
    v.(leader := v.leader[t := n], leaderLog := v.leaderLog[t := v.log[n]], acked := v.acked[At(t, n) := |v.log[n]|])
  }

  ghost predicate CanElect(v: View, n: NodeId) {
    && n in v.members && n in v.term && n in v.log
    && v.term[n] !in v.leaderLog
    && At(v.term[n], n) in v.standing && v.standing[At(v.term[n], n)] == v.log[n]
    && Quorum(v.members, Voters(v, v.term[n], n))
  }

  function Append(v: View, n: NodeId, e: Entry): View
    requires n in v.term && n in v.log
  {
    var log := v.log[n] + [e];
    v.(log := v.log[n := log], leaderLog := v.leaderLog[v.term[n] := log], acked := v.acked[At(v.term[n], n) := |log|])
  }

  ghost predicate CanAppend(v: View, n: NodeId, e: Entry) {
    && n in v.members && n in v.term && n in v.log
    && v.term[n] in v.leader && v.leader[v.term[n]] == n && e.term == v.term[n]
  }

  /** The node takes over the first `k` entries of its term's leader log. */
  function Accept(v: View, n: NodeId, k: nat): View
    requires n in v.term && v.term[n] in v.leaderLog && k <= |v.leaderLog[v.term[n]]|
  {
    var t := v.term[n];
    v.(log := v.log[n := v.leaderLog[t][..k]], acked := v.acked[At(t, n) := k])
  }

  /** ... which include all that the leader stood with, and all that the node accepted before. */
  ghost predicate CanAccept(v: View, n: NodeId, k: nat) {
    && n in v.members && n in v.term && v.term[n] in v.leaderLog
    && Stood(v, v.term[n]) <= k <= |v.leaderLog[v.term[n]]| && Acked(v, n, v.term[n]) <= k
  }

  // ---- History only grows ----

  ghost predicate Extends(v: View, w: View) {
    && Shape(v) && Shape(w) && v.members == w.members
    && (forall n :: n in v.members ==> v.term[n] <= w.term[n])
    && (forall t :: t in v.leaderLog ==>
          t in w.leaderLog && v.leaderLog[t] <= w.leaderLog[t] && v.leader[t] == w.leader[t])
    && (forall p :: p in v.standing ==> p in w.standing && v.standing[p] == w.standing[p])
    && (forall p :: p in v.vote ==> p in w.vote && v.vote[p] == w.vote[p])
    && (forall n, t :: Acked(v, n, t) <= Acked(w, n, t))
  }

  lemma ExtendsTransitive(a: View, b: View, c: View)
    requires Extends(a, b) && Extends(b, c)
    ensures Extends(a, c)
  {
    forall n, t ensures Acked(a, n, t) <= Acked(c, n, t) {
      assert Acked(a, n, t) <= Acked(b, n, t) <= Acked(c, n, t);
    }
  }

  lemma RootedStable(v: View, w: View, log: Log)
    requires Extends(v, w) && Rooted(v, log)
    ensures Rooted(w, log)
  {
    forall i | 0 <= i < |log|
      ensures log[i].term in w.leaderLog && i < |w.leaderLog[log[i].term]|
              && log[..i + 1] == w.leaderLog[log[i].term][..i + 1]
    {
      var t := log[i].term;
      assert w.leaderLog[t][..i + 1] == v.leaderLog[t][..i + 1];
    }
  }

  lemma CommittedStable(v: View, w: View, t: nat, k: nat)
    requires Extends(v, w) && Committed(v, t, k)
    ensures Committed(w, t, k) && Chosen(v, t, k) == Chosen(w, t, k)
  {
    assert AckedBy(v, t, k) <= AckedBy(w, t, k);
    HalfMonotone(v.members, AckedBy(v, t, k), AckedBy(w, t, k));
  }

  // ---- Facts about sound logs ----

  /** Log Matching: sound logs that agree on the term at an index agree up to that index. */
  lemma SoundLogsMatch(v: View, a: Log, b: Log, k: nat)
    requires Rooted(v, a) && Rooted(v, b) && 1 <= k <= |a| && k <= |b| && a[k - 1].term == b[k - 1].term
    ensures a[..k] == b[..k]
  {
    assert a[..(k - 1) + 1] == v.leaderLog[a[k - 1].term][..(k - 1) + 1];
    assert b[..(k - 1) + 1] == v.leaderLog[b[k - 1].term][..(k - 1) + 1];
  }

  /** A sound log is a prefix of the leader log of its last term. */
  lemma SoundIsPrefix(v: View, log: Log)
    requires Rooted(v, log) && log != []
    ensures LastTerm(log) in v.leaderLog && log <= v.leaderLog[LastTerm(log)]
  {
    var i := |log| - 1;
    assert log[..i + 1] == log;
    assert log[..i + 1] == v.leaderLog[log[i].term][..i + 1];
  }

  lemma CommittedIsLive(v: View, t: nat, k: nat)
    requires Shape(v) && Committed(v, t, k)
    ensures Live(v, t, k)
  {
    if Quorum(v.members, Blocked(v, t, k)) {
      var x := HalfMeetsQuorum(v.members, AckedBy(v, t, k), Blocked(v, t, k));
      assert false;
    }
  }

  lemma ChoosableAntitone(v: View, w: View, t: nat, k: nat)
    requires Shape(v) && Shape(w) && v.members == w.members
    requires Blocked(v, t, k) <= Blocked(w, t, k) && Choosable(w, t, k)
    ensures Choosable(v, t, k)
  {
    if Quorum(v.members, Blocked(v, t, k)) {
      QuorumMonotone(v.members, Blocked(v, t, k), Blocked(w, t, k));
    }
  }

  lemma LaterLeaderHolds(v: View, t: nat, k: nat, t': nat)
    requires Inv(v) && Live(v, t, k) && t' in v.leaderLog && t < t'
    ensures Chosen(v, t, k) <= v.leaderLog[t']
  {
    assert HeldByLeader(v, t, k, t') && LeaderLogOk(v, t');
  }

  /** The vote check does its job: a log at least as up to date as one holding a live prefix
      holds that prefix too. */
  lemma UpToDateHolds(v: View, t: nat, k: nat, mine: Log, theirs: Log)
    requires Inv(v) && Live(v, t, k)
    requires Sound(v, mine) && Sound(v, theirs)
    requires Chosen(v, t, k) <= mine
    requires UpToDate(|theirs|, LastTerm(theirs), mine)
    ensures Chosen(v, t, k) <= theirs
  {
    assert mine[k - 1] == Chosen(v, t, k)[k - 1];
    SoundIsPrefix(v, mine);
    var mt, tt := LastTerm(mine), LastTerm(theirs);
    assert mine[k - 1].term <= mine[|mine| - 1].term;
    assert LeaderLogOk(v, mt) && StandingOk(v, At(mt, v.leader[mt]));
    if theirs == [] {
      assert false;
    }
    SoundIsPrefix(v, theirs);
    if tt != mt {
      LaterLeaderHolds(v, t, k, tt);
      var big := v.leaderLog[tt];
      assert LeaderLogOk(v, tt);
      assert big[k - 1] == Chosen(v, t, k)[k - 1];
      assert big[|theirs| - 1] == theirs[|theirs| - 1];
      assert forall i :: 0 <= i <= k - 1 ==> big[i].term <= big[k - 1].term;
    }
  }

  /** At most one leader per term. */
  lemma OneLeaderPerTerm(v: View, t: nat, n: NodeId)
    requires Inv(v) && t in v.leader && Quorum(v.members, Voters(v, t, n))
    ensures v.leader[t] == n
  {
    assert LeaderLogOk(v, t);
    var x := QuorumsMeet(v.members, Voters(v, t, n), Voters(v, t, v.leader[t]));
  }

  /** Any two committed prefixes are comparable. */
  lemma CommittedComparable(v: View, t: nat, k: nat, t': nat, k': nat)
    requires Inv(v) && Committed(v, t, k) && Committed(v, t', k') && t <= t'
    ensures Chosen(v, t, k) <= Chosen(v, t', k') || Chosen(v, t', k') <= Chosen(v, t, k)
  {
    if t < t' {
      CommittedIsLive(v, t, k);
      LaterLeaderHolds(v, t, k, t');
    }
  }
}
