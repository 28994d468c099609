/** Each of the six actions keeps the invariant of RaftCore and only extends the history.
    The first part states, clause by clause, what an extension of the history must show to keep
    that clause; the second part discharges it for each action. */
module RaftCoreSteps {
  import opened RaftTypes
  import opened Quorums
  import opened RaftCore

  // ---- Clause by clause ----

  lemma NodeLogKept(v: View, w: View, n: NodeId)
    requires Extends(v, w) && NodeLogOk(v, n)
    requires n in v.members ==> w.log[n] == v.log[n]
    ensures NodeLogOk(w, n)
  {
    if n in v.members {
      RootedStable(v, w, v.log[n]);
    }
  }

  lemma StandingKept(v: View, w: View, p: At)
    requires Extends(v, w) && StandingOk(v, p)
    requires p in w.standing ==> p in v.standing
    ensures StandingOk(w, p)
  {
    if p in v.standing {
      RootedStable(v, w, v.standing[p]);
    }
  }

  lemma LeaderLogKept(v: View, w: View, t: nat)
    requires Extends(v, w) && LeaderLogOk(v, t)
    requires t in w.leaderLog ==> t in v.leaderLog
    requires t in v.leaderLog ==>
      && w.leaderLog[t] == v.leaderLog[t]
      && (w.term[v.leader[t]] == t ==> w.log[v.leader[t]] == v.log[v.leader[t]])
      && Acked(w, v.leader[t], t) == Acked(v, v.leader[t], t)
    ensures LeaderLogOk(w, t)
  {
    if t in v.leaderLog {
      RootedStable(v, w, v.leaderLog[t]);
      VotersKept(v, w, t, v.leader[t]);
    }
  }

  lemma VotersKept(v: View, w: View, t: nat, c: NodeId)
    requires Extends(v, w) && Quorum(v.members, Voters(v, t, c))
    ensures Quorum(w.members, Voters(w, t, c))
  {
    assert Voters(v, t, c) <= Voters(w, t, c);
    QuorumMonotone(v.members, Voters(v, t, c), Voters(w, t, c));
  }

  lemma VoteKept(v: View, w: View, p: At)
    requires Extends(v, w) && VoteOk(v, p)
    requires p in w.vote ==> p in v.vote
    ensures VoteOk(w, p)
  {
  }

  lemma AckKept(v: View, w: View, p: At)
    requires Extends(v, w) && AckOk(v, p)
    requires p in w.acked ==> p in v.acked && w.acked[p] == v.acked[p]
    ensures AckOk(w, p)
  {
  }

  lemma OwnTermKept(v: View, w: View, n: NodeId)
    requires Extends(v, w) && OwnTermOk(v, n) && NodeLogOk(v, n)
    requires n in v.members ==> w.log[n] == v.log[n]
    ensures OwnTermOk(w, n)
  {
    if n in v.members {
      assert Acked(v, n, v.term[n]) <= Acked(w, n, v.term[n]);
    }
  }

  /** A slot of `v` that is live after the step was live before it, unless some node that had
      left the term accepted it. */
  lemma LiveBefore(v: View, w: View, t: nat, k: nat)
    requires Extends(v, w) && Slot(v, t, k) && Live(w, t, k)
    requires forall n :: n in v.members && v.term[n] > t ==> Acked(v, n, t) == Acked(w, n, t)
    ensures Live(v, t, k) && Chosen(v, t, k) == Chosen(w, t, k)
  {
    assert Blocked(v, t, k) <= Blocked(w, t, k);
    ChoosableAntitone(v, w, t, k);
  }

  // ---- Action by action ----

  lemma InitialInv(members: set<NodeId>)
    ensures Inv(Initial(members))
  {
  }

  lemma BumpStructure(v: View, w: View)
    requires Structure(v) && Extends(v, w) && w == v.(term := w.term)
    ensures Structure(w)
  {
    forall n ensures NodeLogOk(w, n) { assert NodeLogOk(v, n); NodeLogKept(v, w, n); }
    forall p ensures StandingOk(w, p) { assert StandingOk(v, p); StandingKept(v, w, p); }
    forall t ensures LeaderLogOk(w, t) { assert LeaderLogOk(v, t); LeaderLogKept(v, w, t); }
    forall p ensures VoteOk(w, p) { assert VoteOk(v, p); VoteKept(v, w, p); }
    forall p ensures AckOk(w, p) { assert AckOk(v, p); AckKept(v, w, p); }
    forall m ensures OwnTermOk(w, m) { assert OwnTermOk(v, m) && NodeLogOk(v, m); OwnTermKept(v, w, m); }
  }

  lemma BumpCompleteness(v: View, w: View)
    requires Shape(v) && Completeness(v) && Extends(v, w) && w == v.(term := w.term)
    ensures Completeness(w)
  {
    forall t: nat, k: nat, t': nat ensures HeldByLeader(w, t, k, t') {
      if Live(w, t, k) { LiveBefore(v, w, t, k); assert HeldByLeader(v, t, k, t'); }
    }
    forall t: nat, k: nat, n: NodeId ensures HeldByNode(w, t, k, n) {
      if Live(w, t, k) { LiveBefore(v, w, t, k); assert HeldByNode(v, t, k, n); }
    }
    forall t: nat, k: nat, p: At ensures HeldByCandidate(w, t, k, p) {
      if Live(w, t, k) { LiveBefore(v, w, t, k); assert HeldByCandidate(v, t, k, p); }
    }
  }

  lemma BumpKeeps(v: View, n: NodeId, t: nat)
    requires Inv(v) && n in v.members && t >= v.term[n]
    ensures Inv(Bump(v, n, t)) && Extends(v, Bump(v, n, t))
  {
    var w := Bump(v, n, t);
    assert Extends(v, w);
    BumpStructure(v, w);
    BumpCompleteness(v, w);
  }

  lemma StandExtends(v: View, n: NodeId)
    requires Structure(v) && n in v.members
    ensures Extends(v, Stand(v, n))
  {
    assert StandingOk(v, At(v.term[n] + 1, n)) && VoteOk(v, At(v.term[n] + 1, n));
  }

  lemma StandStructure(v: View, n: NodeId)
    requires Structure(v) && n in v.members
    ensures Structure(Stand(v, n)) && Extends(v, Stand(v, n))
  {
    hide Blocked;
    var w := Stand(v, n);
    var at := At(v.term[n] + 1, n);
    assert StandingOk(v, at) && VoteOk(v, at) && NodeLogOk(v, n);
    StandExtends(v, n);
    RootedStable(v, w, v.log[n]);
    forall m ensures NodeLogOk(w, m) { assert NodeLogOk(v, m); NodeLogKept(v, w, m); }
    forall p ensures StandingOk(w, p) { assert StandingOk(v, p); if p != at { StandingKept(v, w, p); } }
    forall t ensures LeaderLogOk(w, t) { assert LeaderLogOk(v, t); LeaderLogKept(v, w, t); }
    forall p ensures VoteOk(w, p) { assert VoteOk(v, p); if p != at { VoteKept(v, w, p); } }
    forall p ensures AckOk(w, p) { assert AckOk(v, p); AckKept(v, w, p); }
    forall m ensures OwnTermOk(w, m) { assert OwnTermOk(v, m) && NodeLogOk(v, m); OwnTermKept(v, w, m); }
  }

  lemma StandCompleteness(v: View, n: NodeId)
    requires Inv(v) && n in v.members && Extends(v, Stand(v, n))
    ensures Completeness(Stand(v, n))
  {
    hide Quorum;
    var w := Stand(v, n);
    var at := At(v.term[n] + 1, n);
    assert StandingOk(v, at) && VoteOk(v, at);
    forall t: nat, k: nat, t': nat ensures HeldByLeader(w, t, k, t') {
      if Live(w, t, k) { LiveBefore(v, w, t, k); assert HeldByLeader(v, t, k, t'); }
    }
    forall t: nat, k: nat, m: NodeId ensures HeldByNode(w, t, k, m) {
      if Live(w, t, k) { LiveBefore(v, w, t, k); assert HeldByNode(v, t, k, m); }
    }
    forall t: nat, k: nat, p: At ensures HeldByCandidate(w, t, k, p) {
      if Live(w, t, k) {
        LiveBefore(v, w, t, k);
        assert VoteOk(v, p) && HeldByCandidate(v, t, k, p) && HeldByNode(v, t, k, n);
      }
    }
  }

  lemma StandKeeps(v: View, n: NodeId)
    requires Inv(v) && n in v.members
    ensures Inv(Stand(v, n)) && Extends(v, Stand(v, n))
  {
    StandStructure(v, n);
    StandCompleteness(v, n);
  }

  lemma VoteStructure(v: View, n: NodeId, c: NodeId)
    requires Structure(v) && CanVote(v, n, c)
    ensures Structure(Vote(v, n, c)) && Extends(v, Vote(v, n, c))
  {
    hide Quorum;
    var w := Vote(v, n, c);
    var at := At(v.term[n], n);
    assert Extends(v, w);
    forall m ensures NodeLogOk(w, m) { assert NodeLogOk(v, m); NodeLogKept(v, w, m); }
    forall p ensures StandingOk(w, p) { assert StandingOk(v, p); StandingKept(v, w, p); }
    forall t ensures LeaderLogOk(w, t) { assert LeaderLogOk(v, t); LeaderLogKept(v, w, t); }
    forall p ensures VoteOk(w, p) { assert VoteOk(v, p); if p != at { VoteKept(v, w, p); } }
    forall p ensures AckOk(w, p) { assert AckOk(v, p); AckKept(v, w, p); }
    forall m ensures OwnTermOk(w, m) { assert OwnTermOk(v, m) && NodeLogOk(v, m); OwnTermKept(v, w, m); }
  }

  lemma VoteCompleteness(v: View, n: NodeId, c: NodeId)
    requires Inv(v) && CanVote(v, n, c) && Extends(v, Vote(v, n, c))
    ensures Completeness(Vote(v, n, c))
  {
    var w := Vote(v, n, c);
    var at := At(v.term[n], n);
    forall t: nat, k: nat, t': nat ensures HeldByLeader(w, t, k, t') {
      if Live(w, t, k) { LiveBefore(v, w, t, k); assert HeldByLeader(v, t, k, t'); }
    }
    forall t: nat, k: nat, m: NodeId ensures HeldByNode(w, t, k, m) {
      if Live(w, t, k) { LiveBefore(v, w, t, k); assert HeldByNode(v, t, k, m); }
    }
    forall t: nat, k: nat, p: At ensures HeldByCandidate(w, t, k, p) {
      if Live(w, t, k) {
        LiveBefore(v, w, t, k);
        assert HeldByCandidate(v, t, k, p);
        if p == at && t < at.term && Acked(v, n, t) >= k {
          VoteCarries(v, n, c, t, k);
        }
      }
    }
  }

  lemma VoteCarries(v: View, n: NodeId, c: NodeId, t: nat, k: nat)
    requires Inv(v) && CanVote(v, n, c) && Live(v, t, k) && Acked(v, n, t) >= k
    ensures Chosen(v, t, k) <= v.standing[At(v.term[n], c)]
  {
    assert HeldByNode(v, t, k, n) && NodeLogOk(v, n) && StandingOk(v, At(v.term[n], c));
    UpToDateHolds(v, t, k, v.log[n], v.standing[At(v.term[n], c)]);
  }

  lemma VoteKeeps(v: View, n: NodeId, c: NodeId)
    requires Inv(v) && CanVote(v, n, c)
    ensures Inv(Vote(v, n, c)) && Extends(v, Vote(v, n, c))
  {
    VoteStructure(v, n, c);
    VoteCompleteness(v, n, c);
  }

  lemma ElectExtends(v: View, n: NodeId)
    requires Structure(v) && CanElect(v, n)
    ensures Extends(v, Elect(v, n))
  {
    assert AckOk(v, At(v.term[n], n));
  }

  lemma ElectStructure(v: View, n: NodeId)
    requires Structure(v) && CanElect(v, n)
    ensures Structure(Elect(v, n)) && Extends(v, Elect(v, n))
  {
    hide Quorum, Extends;
    var w := Elect(v, n);
    var at := At(v.term[n], n);
    assert AckOk(v, at) && NodeLogOk(v, n);
    ElectExtends(v, n);
    forall m ensures NodeLogOk(w, m) { assert NodeLogOk(v, m); NodeLogKept(v, w, m); }
    forall p ensures StandingOk(w, p) { assert StandingOk(v, p); StandingKept(v, w, p); }
    forall t ensures LeaderLogOk(w, t) {
      assert LeaderLogOk(v, t);
      if t == at.term {
        RootedStable(v, w, v.log[n]);
        VotersKept(v, w, t, n);
      } else {
        LeaderLogKept(v, w, t);
      }
    }
    forall p ensures VoteOk(w, p) { assert VoteOk(v, p); VoteKept(v, w, p); }
    forall p ensures AckOk(w, p) { assert AckOk(v, p); if p != at { AckKept(v, w, p); } }
    forall m ensures OwnTermOk(w, m) { assert OwnTermOk(v, m) && NodeLogOk(v, m); OwnTermKept(v, w, m); }
  }

  /** No entry of the term exists when its leader is elected, so no slot is new. */
  lemma ElectLive(v: View, n: NodeId, t: nat, k: nat)
    requires Structure(v) && CanElect(v, n) && Extends(v, Elect(v, n)) && Live(Elect(v, n), t, k)
    ensures Live(v, t, k) && Chosen(v, t, k) == Chosen(Elect(v, n), t, k) && t != v.term[n]
  {
    var w := Elect(v, n);
    assert StandingOk(v, At(v.term[n], n));
    if t == v.term[n] {
      assert false;
    }
    LiveBefore(v, w, t, k);
  }

  lemma ElectCarries(v: View, n: NodeId, t: nat, k: nat)
    requires Inv(v) && CanElect(v, n) && Live(v, t, k) && t < v.term[n]
    ensures Chosen(v, t, k) <= v.standing[At(v.term[n], n)]
  {
    var x := QuorumEscapes(v.members, Voters(v, v.term[n], n), Blocked(v, t, k));
    assert VoteOk(v, At(v.term[n], x)) && HeldByCandidate(v, t, k, At(v.term[n], x));
  }

  lemma ElectCompleteness(v: View, n: NodeId)
    requires Inv(v) && CanElect(v, n) && Extends(v, Elect(v, n))
    ensures Completeness(Elect(v, n))
  {
    hide Quorum;
    var w := Elect(v, n);
    forall t: nat, k: nat, t': nat ensures HeldByLeader(w, t, k, t') {
      if Live(w, t, k) {
        ElectLive(v, n, t, k);
        assert HeldByLeader(v, t, k, t');
        if t' == v.term[n] && t < t' { ElectCarries(v, n, t, k); }
      }
    }
    forall t: nat, k: nat, m: NodeId ensures HeldByNode(w, t, k, m) {
      if Live(w, t, k) { ElectLive(v, n, t, k); assert HeldByNode(v, t, k, m); }
    }
    forall t: nat, k: nat, p: At ensures HeldByCandidate(w, t, k, p) {
      if Live(w, t, k) { ElectLive(v, n, t, k); assert HeldByCandidate(v, t, k, p); }
    }
  }

  lemma ElectKeeps(v: View, n: NodeId)
    requires Inv(v) && CanElect(v, n)
    ensures Inv(Elect(v, n)) && Extends(v, Elect(v, n))
  {
    ElectStructure(v, n);
    ElectCompleteness(v, n);
  }

  lemma AppendExtends(v: View, n: NodeId, e: Entry)
    requires Structure(v) && CanAppend(v, n, e)
    ensures Extends(v, Append(v, n, e)) && v.log[n] == v.leaderLog[v.term[n]] && Acked(v, n, v.term[n]) == |v.log[n]|
  {
    hide Quorum;
    assert LeaderLogOk(v, v.term[n]);
  }

  lemma AppendSound(v: View, n: NodeId, e: Entry)
    requires Structure(v) && CanAppend(v, n, e)
    ensures Sound(Append(v, n, e), v.log[n] + [e]) && Below(v.log[n] + [e], v.term[n] + 1)
  {
    AppendExtends(v, n, e);
    assert NodeLogOk(v, n);
    var w := Append(v, n, e);
    RootedStable(v, w, v.log[n]);
    RootedSnoc(w, v.log[n], e);
    AscendingSnoc(v.log[n], e);
  }

  lemma AscendingSnoc(log: Log, e: Entry)
    requires Ascending(log) && Below(log, e.term + 1)
    ensures Ascending(log + [e]) && Below(log + [e], e.term + 1)
  {
  }

  lemma RootedSnoc(v: View, log: Log, e: Entry)
    requires Rooted(v, log) && e.term in v.leaderLog && v.leaderLog[e.term] == log + [e]
    ensures Rooted(v, log + [e])
  {
    var longer := log + [e];
    forall i | 0 <= i < |longer|
      ensures longer[i].term in v.leaderLog && i < |v.leaderLog[longer[i].term]|
              && longer[..i + 1] == v.leaderLog[longer[i].term][..i + 1]
    {
      if i < |log| {
        assert longer[..i + 1] == log[..i + 1];
      }
    }
  }

  lemma AppendLeaderLogs(v: View, n: NodeId, e: Entry, t: nat)
    requires Structure(v) && CanAppend(v, n, e) && Extends(v, Append(v, n, e))
    requires v.log[n] == v.leaderLog[v.term[n]]
    requires Sound(Append(v, n, e), v.log[n] + [e])
    ensures LeaderLogOk(Append(v, n, e), t)
  {
    hide Quorum, Rooted, Ascending, Extends, Voters;
    var w := Append(v, n, e);
    assert LeaderLogOk(v, t);
    if t == v.term[n] {
      VotersKept(v, w, t, n);
    } else {
      LeaderLogKept(v, w, t);
    }
  }

  lemma AppendStructure(v: View, n: NodeId, e: Entry)
    requires Structure(v) && CanAppend(v, n, e)
    ensures Structure(Append(v, n, e))
  {
    hide AckedBy, Extends, Quorum, Rooted, Ascending, Voters;
    AppendExtends(v, n, e);
    AppendSound(v, n, e);
    var w := Append(v, n, e);
    var at := At(v.term[n], n);
    forall m ensures NodeLogOk(w, m) { assert NodeLogOk(v, m); if m != n { NodeLogKept(v, w, m); } }
    forall p ensures StandingOk(w, p) { assert StandingOk(v, p); StandingKept(v, w, p); }
    forall t ensures LeaderLogOk(w, t) { AppendLeaderLogs(v, n, e, t); }
    forall p ensures VoteOk(w, p) { assert VoteOk(v, p); VoteKept(v, w, p); }
    forall p ensures AckOk(w, p) { assert AckOk(v, p); if p != at { AckKept(v, w, p); } }
    forall m ensures OwnTermOk(w, m) { assert OwnTermOk(v, m) && NodeLogOk(v, m); if m != n { OwnTermKept(v, w, m); } }
  }

  /** The one new slot: nobody but its leader accepted it, and once a later leader exists it can
      no longer be chosen. */
  lemma AppendNewSlot(v: View, n: NodeId, e: Entry, m: NodeId)
    requires Structure(v) && CanAppend(v, n, e)
    ensures m != n ==> Acked(Append(v, n, e), m, v.term[n]) <= |v.log[n]|
  {
    AppendExtends(v, n, e);
    assert AckOk(v, At(v.term[n], m));
  }

  lemma AppendNotLive(v: View, n: NodeId, e: Entry, t': nat)
    requires Structure(v) && CanAppend(v, n, e) && Shape(Append(v, n, e)) && t' in v.leaderLog && v.term[n] < t'
    ensures !Live(Append(v, n, e), v.term[n], |v.log[n]| + 1)
  {
    var w := Append(v, n, e);
    assert LeaderLogOk(v, t');
    var q := Voters(v, t', v.leader[t']);
    forall m | m in q ensures m in Blocked(w, v.term[n], |v.log[n]| + 1) {
      assert VoteOk(v, At(t', m));
      AppendNewSlot(v, n, e, m);
    }
    QuorumMonotone(v.members, q, Blocked(w, v.term[n], |v.log[n]| + 1));
  }

  lemma AppendLive(v: View, n: NodeId, e: Entry, t: nat, k: nat)
    requires Structure(v) && CanAppend(v, n, e) && Shape(Append(v, n, e)) && Live(Append(v, n, e), t, k)
    requires t != v.term[n] || k != |v.log[n]| + 1
    ensures Live(v, t, k) && Chosen(v, t, k) == Chosen(Append(v, n, e), t, k)
  {
    AppendExtends(v, n, e);
    LiveBefore(v, Append(v, n, e), t, k);
  }

  lemma AppendCompleteness(v: View, n: NodeId, e: Entry)
    requires Inv(v) && CanAppend(v, n, e) && Shape(Append(v, n, e))
    ensures Completeness(Append(v, n, e))
  {
    hide Quorum, Blocked, Below, Extends, Rooted, AckOk;
    var w := Append(v, n, e);
    var t0, k0 := v.term[n], |v.log[n]| + 1;
    forall t: nat, k: nat, t': nat ensures HeldByLeader(w, t, k, t') {
      if Live(w, t, k) && t' in v.leaderLog && t < t' {
        if t == t0 && k == k0 {
          AppendNotLive(v, n, e, t');
          assert false;
        }
        AppendLive(v, n, e, t, k);
        assert HeldByLeader(v, t, k, t');
      }
    }
    AppendExtends(v, n, e);
    forall t: nat, k: nat, m: NodeId ensures HeldByNode(w, t, k, m) {
      AppendNewSlot(v, n, e, m);
      if Live(w, t, k) && !(t == t0 && k == k0) {
        AppendLive(v, n, e, t, k);
        assert HeldByNode(v, t, k, m);
      }
    }
    forall t: nat, k: nat, p: At ensures HeldByCandidate(w, t, k, p) {
      AppendNewSlot(v, n, e, p.node);
      assert VoteOk(v, p);
      if Live(w, t, k) && !(t == t0 && k == k0) {
        AppendLive(v, n, e, t, k);
        assert HeldByCandidate(v, t, k, p);
      }
    }
  }

  lemma AppendKeeps(v: View, n: NodeId, e: Entry)
    requires Inv(v) && CanAppend(v, n, e)
    ensures Inv(Append(v, n, e)) && Extends(v, Append(v, n, e))
  {
    AppendExtends(v, n, e);
    AppendStructure(v, n, e);
    AppendCompleteness(v, n, e);
  }

  lemma AcceptExtends(v: View, n: NodeId, k: nat)
    requires Structure(v) && CanAccept(v, n, k)
    ensures Extends(v, Accept(v, n, k))
  {
    assert AckOk(v, At(v.term[n], n));
  }

  lemma RootedPrefix(v: View, log: Log, k: nat)
    requires Sound(v, log) && k <= |log|
    ensures Sound(v, log[..k])
  {
    forall i | 0 <= i < k
      ensures var t := log[..k][i].term;
              t in v.leaderLog && i < |v.leaderLog[t]| && log[..k][..i + 1] == v.leaderLog[t][..i + 1]
    {
      assert log[..k][..i + 1] == log[..i + 1];
    }
  }

  /** What the node then holds is sound and of no later term. */
  lemma AcceptSound(v: View, n: NodeId, k: nat)
    requires Structure(v) && CanAccept(v, n, k)
    ensures Sound(v, v.leaderLog[v.term[n]][..k]) && Below(v.leaderLog[v.term[n]][..k], v.term[n] + 1)
  {
    var t := v.term[n];
    assert LeaderLogOk(v, t) && StandingOk(v, At(t, v.leader[t]));
    RootedPrefix(v, v.leaderLog[t], k);
    var stood := v.standing[At(t, v.leader[t])];
    forall i | 0 <= i < k ensures v.leaderLog[t][i].term < t + 1 {
      if i < |stood| {
        assert stood[i] == v.leaderLog[t][i];
      }
    }
  }

  /** A leader can only accept all of its own log. */
  lemma AcceptByLeader(v: View, n: NodeId, k: nat)
    requires Structure(v) && CanAccept(v, n, k) && v.leader[v.term[n]] == n
    ensures k == |v.leaderLog[v.term[n]]| && v.leaderLog[v.term[n]][..k] == v.log[n]
  {
    assert LeaderLogOk(v, v.term[n]);
  }

  lemma AcceptLeaderLogs(v: View, n: NodeId, k: nat, t: nat)
    requires Structure(v) && CanAccept(v, n, k) && Extends(v, Accept(v, n, k))
    ensures LeaderLogOk(Accept(v, n, k), t)
  {
    hide Quorum, Rooted, Ascending, Extends;
    assert LeaderLogOk(v, t);
    if t in v.leader && v.leader[t] == n && t == v.term[n] {
      AcceptByLeader(v, n, k);
    }
    LeaderLogKept(v, Accept(v, n, k), t);
  }

  lemma AcceptStructure(v: View, n: NodeId, k: nat)
    requires Structure(v) && CanAccept(v, n, k)
    ensures Structure(Accept(v, n, k)) && Extends(v, Accept(v, n, k))
  {
    hide Quorum, Rooted, Ascending, Extends;
    var w := Accept(v, n, k);
    var at := At(v.term[n], n);
    AcceptExtends(v, n, k);
    AcceptSound(v, n, k);
    RootedStable(v, w, v.leaderLog[at.term][..k]);
    forall m ensures NodeLogOk(w, m) { assert NodeLogOk(v, m); if m != n { NodeLogKept(v, w, m); } }
    forall p ensures StandingOk(w, p) { assert StandingOk(v, p); StandingKept(v, w, p); }
    forall t ensures LeaderLogOk(w, t) { AcceptLeaderLogs(v, n, k, t); }
    forall p ensures VoteOk(w, p) { assert VoteOk(v, p); VoteKept(v, w, p); }
    forall p ensures AckOk(w, p) { assert AckOk(v, p); if p != at { AckKept(v, w, p); } }
    forall m ensures OwnTermOk(w, m) { assert OwnTermOk(v, m) && NodeLogOk(v, m); if m != n { OwnTermKept(v, w, m); } }
  }

  /** What is live in an earlier term is in every log its leader stood with, so within the accepted part. */
  lemma AcceptCarries(v: View, n: NodeId, k: nat, t: nat, i: nat)
    requires Inv(v) && CanAccept(v, n, k) && Live(v, t, i) && t < v.term[n]
    ensures Chosen(v, t, i) <= v.leaderLog[v.term[n]][..k]
  {
    assert HeldByLeader(v, t, i, v.term[n]) && LeaderLogOk(v, v.term[n]);
  }

  lemma AcceptCompleteness(v: View, n: NodeId, k: nat)
    requires Inv(v) && CanAccept(v, n, k) && Extends(v, Accept(v, n, k))
    ensures Completeness(Accept(v, n, k))
  {
    hide Quorum, Extends;
    var w := Accept(v, n, k);
    var t0 := v.term[n];
    forall t: nat, i: nat, t': nat ensures HeldByLeader(w, t, i, t') {
      if Live(w, t, i) { LiveBefore(v, w, t, i); assert HeldByLeader(v, t, i, t'); }
    }
    forall t: nat, i: nat, m: NodeId ensures HeldByNode(w, t, i, m) {
      if Live(w, t, i) {
        LiveBefore(v, w, t, i);
        assert HeldByNode(v, t, i, m) && AckOk(v, At(t, m));
        if m == n && t < t0 { AcceptCarries(v, n, k, t, i); }
      }
    }
    forall t: nat, i: nat, p: At ensures HeldByCandidate(w, t, i, p) {
      if Live(w, t, i) { LiveBefore(v, w, t, i); assert VoteOk(v, p) && HeldByCandidate(v, t, i, p); }
    }
  }

  lemma AcceptKeeps(v: View, n: NodeId, k: nat)
    requires Inv(v) && CanAccept(v, n, k)
    ensures Inv(Accept(v, n, k)) && Extends(v, Accept(v, n, k))
  {
    AcceptStructure(v, n, k);
    AcceptCompleteness(v, n, k);
  }
}
