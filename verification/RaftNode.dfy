/** The node as the code has it: fields changed in place, entry by entry and peer by peer.  Each
    method is proved to take the step of the same name in RaftTypes. */
module RaftNodes {
  import opened KvOps
  import T = RaftTypes

  // ---- Sorting match values ----

  predicate Sorted(a: seq<nat>) {
    forall i, j :: 0 <= i <= j < |a| ==> a[i] <= a[j]
  }

  function Insert(x: nat, a: seq<nat>): seq<nat> {
    if a == [] || x <= a[0] then [x] + a else [a[0]] + Insert(x, a[1..])
  }

  /** std::sort. */
  function Sort(a: seq<nat>): seq<nat> {
    if a == [] then [] else Insert(a[|a| - 1], Sort(a[..|a| - 1]))
  }

  lemma {:induction false} InsertPermutes(x: nat, a: seq<nat>)
    ensures multiset(Insert(x, a)) == multiset(a) + multiset{x}
  {
    if a != [] && x > a[0] {
      InsertPermutes(x, a[1..]);
      assert a == [a[0]] + a[1..];
    }
  }

  lemma InsertCases(x: nat, a: seq<nat>)
    ensures Insert(x, a) == if a == [] || x <= a[0] then [x] + a else [a[0]] + Insert(x, a[1..])
  {
  }

  lemma {:induction false} InsertSorts(x: nat, a: seq<nat>)
    requires Sorted(a)
    ensures Sorted(Insert(x, a))
  {
    hide Insert;
    InsertCases(x, a);
    if a != [] && x > a[0] {
      InsertSorts(x, a[1..]);
      InsertPermutes(x, a[1..]);
      var r := Insert(x, a[1..]);
      forall i | 0 <= i < |r| ensures a[0] <= r[i] {
        assert r[i] in multiset(r);
      }
    }
  }

  lemma {:induction false} SortSorts(a: seq<nat>)
    ensures Sorted(Sort(a)) && multiset(Sort(a)) == multiset(a) && |Sort(a)| == |a|
  {
    hide Insert;
    if a != [] {
      var n := |a| - 1;
      SortSorts(a[..n]);
      InsertSorts(a[n], Sort(a[..n]));
      InsertPermutes(a[n], Sort(a[..n]));
      assert a == a[..n] + [a[n]];
      assert |Sort(a)| == |multiset(Sort(a))| == |multiset(a)| == |a|;
    }
  }

  function CountGe(a: seq<nat>, v: nat): nat {
    if a == [] then 0 else CountGe(a[..|a| - 1], v) + if a[|a| - 1] >= v then 1 else 0
  }

  lemma {:induction false} CountGeConcat(a: seq<nat>, b: seq<nat>, v: nat)
    ensures CountGe(a + b, v) == CountGe(a, v) + CountGe(b, v)
    decreases |b|
  {
    if b == [] {
      assert a + b == a;
    } else {
      CountGeConcat(a, b[..|b| - 1], v);
      assert (a + b)[..|a + b| - 1] == a + b[..|b| - 1];
    }
  }

  lemma RemoveOne(b: seq<nat>, i: nat)
    requires i < |b|
    ensures b == b[..i] + [b[i]] + b[i + 1..]
    ensures multiset(b[..i] + b[i + 1..]) == multiset(b) - multiset{b[i]}
  {
    assert b == b[..i] + [b[i]] + b[i + 1..];
    assert multiset(b) == multiset(b[..i]) + multiset{b[i]} + multiset(b[i + 1..]);
  }

  /** The count does not depend on the order. */
  lemma {:induction false} CountGePermuted(a: seq<nat>, b: seq<nat>, v: nat)
    requires multiset(a) == multiset(b)
    ensures CountGe(a, v) == CountGe(b, v)
    decreases |a|
  {
    if a == [] {
      assert |multiset(b)| == 0;
    } else {
      var x := a[|a| - 1];
      assert a == a[..|a| - 1] + [x];
      assert x in multiset(b);
      var i :| 0 <= i < |b| && b[i] == x;
      RemoveOne(b, i);
      CountGePermuted(a[..|a| - 1], b[..i] + b[i + 1..], v);
      CountGeConcat(b[..i], b[i + 1..], v);
      CountGeConcat(b[..i] + [x], b[i + 1..], v);
      CountGeConcat(b[..i], [x], v);
    }
  }

  lemma {:induction false} CountGeBounds(a: seq<nat>, v: nat, lo: nat, hi: nat)
    requires lo <= |a| && hi <= |a|
    requires forall i :: lo <= i < |a| ==> a[i] >= v
    requires forall i :: 0 <= i < hi ==> a[i] < v
    ensures |a| - lo <= CountGe(a, v) <= |a| - hi
  {
    if a != [] {
      var n := |a| - 1;
      CountGeBounds(a[..n], v, if lo <= n then lo else n, if hi <= n then hi else n);
    }
  }

  /** Position size/2 of the sorted values is reached by at least size - size/2 of them and exceeded
      by fewer. */
  lemma MedianCounts(a: seq<nat>, r: seq<nat>, mid: nat)
    requires Sorted(r) && multiset(a) == multiset(r) && mid < |r|
    ensures CountGe(a, r[mid]) >= |r| - mid && CountGe(a, r[mid] + 1) < |r| - mid
  {
    CountGePermuted(a, r, r[mid]);
    CountGePermuted(a, r, r[mid] + 1);
    CountGeBounds(r, r[mid], mid, 0);
    CountGeBounds(r, r[mid] + 1, |r|, mid + 1);
  }

  /** The rule that picks the commit index leaves no choice. */
  lemma MajorityIndexUnique(s: T.NodeState, a: nat, b: nat)
    requires T.IsMajorityIndex(s, a) && T.IsMajorityIndex(s, b)
    ensures a == b
  {
    if a < b {
      SupportShrinks(s, a + 1, b);
    } else if b < a {
      SupportShrinks(s, b + 1, a);
    }
  }

  lemma SupportShrinks(s: T.NodeState, a: nat, b: nat)
    requires a <= b
    ensures T.SupportCount(s, b) <= T.SupportCount(s, a)
  {
    assert T.Supporters(s, b) <= T.Supporters(s, a);
    var rest := T.Supporters(s, a) - T.Supporters(s, b);
    assert T.Supporters(s, a) == T.Supporters(s, b) + rest;
  }

  function Reaching(m: map<T.NodeId, nat>, keys: set<T.NodeId>, v: nat): set<T.NodeId> {
    set p | p in keys && p in m && m[p] >= v
  }

  lemma ReachingGrows(m: map<T.NodeId, nat>, keys: set<T.NodeId>, p: T.NodeId)
    requires p in m && p !in keys
    ensures forall v: nat :: |Reaching(m, keys + {p}, v)| == |Reaching(m, keys, v)| + if m[p] >= v then 1 else 0
  {
    forall v: nat
      ensures |Reaching(m, keys + {p}, v)| == |Reaching(m, keys, v)| + if m[p] >= v then 1 else 0
    {
      assert Reaching(m, keys + {p}, v) == if m[p] >= v then Reaching(m, keys, v) + {p} else Reaching(m, keys, v);
    }
  }

  /** `values` are the leader's own last index and the match indices of `keys`, in some order. */
  ghost predicate Collected(values: seq<nat>, own: nat, m: map<T.NodeId, nat>, keys: set<T.NodeId>) {
    && |values| == 1 + |keys|
    && forall v: nat :: CountGe(values, v) == |Reaching(m, keys, v)| + if own >= v then 1 else 0
  }

  lemma CollectMore(values: seq<nat>, own: nat, m: map<T.NodeId, nat>, keys: set<T.NodeId>, p: T.NodeId)
    requires Collected(values, own, m, keys) && p in m && p !in keys
    ensures Collected(values + [m[p]], own, m, keys + {p})
  {
    ReachingGrows(m, keys, p);
    var more := values + [m[p]];
    assert more[..|more| - 1] == values;
  }

  lemma NothingFilled(m: map<T.NodeId, nat>, v: nat)
    ensures T.Filled(m, [], v) == m
  {
  }

  lemma FilledSnoc(m: map<T.NodeId, nat>, keys: seq<T.NodeId>, i: nat, v: nat)
    requires i < |keys|
    ensures T.Filled(m, keys[..i + 1], v) == T.Filled(m, keys[..i], v)[keys[i] := v]
  {
    assert keys[..i + 1] == keys[..i] + [keys[i]];
  }

  /** A node in its cluster. */
  class RaftNode {
    const id: T.NodeId
    const peers: seq<T.NodeId>
    var role: T.Role
    var leaderId: Option<T.NodeId>
    var term: nat
    var votedFor: Option<T.NodeId>
    var log: seq<T.Entry>
    var commit: nat
    var lastApplied: nat
    var nextIndex: map<T.NodeId, nat>
    var matchIndex: map<T.NodeId, nat>
    var store: KvMap

    ghost function State(): T.NodeState
      reads this
    {
      T.NodeState(id, peers, role, leaderId, term, votedFor, log, commit, lastApplied, nextIndex, matchIndex, store)
    }

    constructor (id: T.NodeId, peers: seq<T.NodeId>)
      ensures State() == T.InitialNode(id, peers)
    {
      this.id, this.peers := id, peers;
      role, leaderId, term, votedFor := T.Follower, None, 0, None;
      log, commit, lastApplied := [], 0, 0;
      nextIndex, matchIndex, store := map[], map[], map[];
    }

    method BecomeFollower(newTerm: nat, leader: Option<T.NodeId>)
      modifies this
      ensures State() == T.BecomeFollower(old(State()), newTerm, leader)
    {
      role, leaderId, term, votedFor := T.Follower, leader, newTerm, None;
    }

    method BecomeCandidate()
      modifies this
      ensures State() == T.BecomeCandidate(old(State()))
    {
      role, leaderId, term, votedFor := T.Candidate, None, term + 1, Some(id);
    }

    /** Resets what is known about every peer. */
    method BecomeLeader()
      modifies this
      ensures State() == T.BecomeLeader(old(State()))
    {
      hide T.Filled;
      NothingFilled(nextIndex, |log| + 1);
      NothingFilled(matchIndex, 0);
      role, leaderId := T.Leader, Some(id);
      var last := |log|;
      for i := 0 to |peers|
        invariant State() == old(State()).(role := T.Leader, leaderId := Some(id), nextIndex := nextIndex,
                  matchIndex := matchIndex)
        invariant nextIndex == T.Filled(old(nextIndex), peers[..i], last + 1)
        invariant matchIndex == T.Filled(old(matchIndex), peers[..i], 0)
      {
        FilledSnoc(old(nextIndex), peers, i, last + 1);
        FilledSnoc(old(matchIndex), peers, i, 0);
        nextIndex := nextIndex[peers[i] := last + 1];
        matchIndex := matchIndex[peers[i] := 0];
      }
      assert peers[..|peers|] == peers;
    }

    method OnRequestVote(req: T.RequestVoteReq) returns (resp: T.RequestVoteResp)
      modifies this
      ensures (State(), resp) == T.OnRequestVote(old(State()), req)
    {
      resp := T.RequestVoteResp(term, false);
      if req.term < term {
        return;
      }
      if req.term > term {
        BecomeFollower(req.term, None);
      }
      resp := T.RequestVoteResp(term, false);
      var canVote := votedFor.None? || votedFor.value == req.candidateId;
      if canVote && T.UpToDate(req.lastLogIndex, req.lastLogTerm, log) {
        votedFor := Some(req.candidateId);
        resp := T.RequestVoteResp(term, true);
      }
    }

    method OnAppendEntries(req: T.AppendEntriesReq) returns (resp: T.AppendEntriesResp)
      modifies this
      ensures (State(), resp) == T.OnAppendEntries(old(State()), req)
    {
      resp := T.AppendEntriesResp(term, false);
      if req.term < term {
        return;
      }
      if req.term > term {
        BecomeFollower(req.term, Some(req.leaderId));
      } else {
        role, leaderId := T.Follower, Some(req.leaderId);
      }
      resp := T.AppendEntriesResp(term, false);
      if req.prevLogIndex > |log| || T.TermAt(log, req.prevLogIndex) != req.prevLogTerm {
        return;
      }
      ghost var before := State();
      if req.entries != [] {
        if req.prevLogIndex < |log| {
          log := log[..req.prevLogIndex];
        }
        for i := 0 to |req.entries|
          invariant State() == before.(log := log)
          invariant log == before.log[..req.prevLogIndex] + req.entries[..i]
        {
          log := log + [req.entries[i]];
        }
        assert req.entries[..|req.entries|] == req.entries;
      }
      if req.leaderCommit > commit {
        commit := T.Min(req.leaderCommit, |log|);
      }
      resp := T.AppendEntriesResp(term, true);
    }

    /** Copies the suffix of the log from nextIndex on, entry by entry. */
    method BuildAppendEntries(peer: T.NodeId) returns (req: T.AppendEntriesReq)
      ensures req == T.BuildAppendEntries(State(), peer)
    {
      var next := if peer in nextIndex then nextIndex[peer] else 1;
      var prev := if next == 0 || next == 1 then 0 else next - 1;
      var entries := [];
      if next >= 1 && next <= |log| {
        for i := next - 1 to |log|
          invariant entries == log[next - 1..i]
        {
          entries := entries + [log[i]];
        }
      }
      req := T.AppendEntriesReq(term, id, prev, T.TermAt(log, prev), entries, commit);
    }

    /** The leader's last index and the match values, in whatever order the map yields them. */
    method MatchValues() returns (values: seq<nat>)
      ensures Collected(values, |log|, matchIndex, matchIndex.Keys)
    {
      values := [|log|];
      var rest: set<T.NodeId> := matchIndex.Keys;
      while rest != {}
        invariant rest <= matchIndex.Keys
        invariant Collected(values, |log|, matchIndex, matchIndex.Keys - rest)
        decreases |rest|
      {
        var p := AnyOf(rest);
        CollectMore(values, |log|, matchIndex, matchIndex.Keys - rest, p);
        assert matchIndex.Keys - (rest - {p}) == (matchIndex.Keys - rest) + {p};
        values := values + [matchIndex[p]];
        rest := rest - {p};
      }
      assert matchIndex.Keys - {} == matchIndex.Keys;
    }

    /** Sorts the match values and takes the one in the middle. */
    method MajorityIndex() returns (k: nat)
      ensures T.IsMajorityIndex(State(), k)
    {
      var values := MatchValues();
      var sorted := Sort(values);
      SortSorts(values);
      k := sorted[|values| / 2];
      MedianCounts(values, sorted, |values| / 2);
      assert |matchIndex| == |matchIndex.Keys|;
      assert Reaching(matchIndex, matchIndex.Keys, k) == T.Supporters(State(), k);
      assert Reaching(matchIndex, matchIndex.Keys, k + 1) == T.Supporters(State(), k + 1);
    }

    method AdvanceCommitIndex() returns (k: nat)
      modifies this
      ensures T.IsMajorityIndex(old(State()), k) && State() == T.AdvanceCommit(old(State()), k)
    {
      k := MajorityIndex();
      if k > commit && T.TermAt(log, k) == term {
        commit := k;
      }
    }

    /** The heartbeat loop's treatment of one reply. */
    method HandleHeartbeatReply(peer: T.NodeId, req: T.AppendEntriesReq, resp: T.AppendEntriesResp) returns (k: nat)
      modifies this
      ensures resp.term > old(term) ==> State() == T.BecomeFollower(old(State()), resp.term, None)
      ensures resp.term <= old(term) && resp.success ==>
                var s := T.RecordMatch(old(State()), peer, req);
                T.IsMajorityIndex(s, k) && State() == T.AdvanceCommit(s, k)
      ensures resp.term <= old(term) && !resp.success ==> State() == T.Backtrack(old(State()), peer)
    {
      hide T.IsMajorityIndex, T.AdvanceCommit;
      k := 0;
      if resp.term > term {
        BecomeFollower(resp.term, None);
      } else if resp.success {
        if req.entries != [] {
          var sentLast := req.prevLogIndex + |req.entries|;
          matchIndex := matchIndex[peer := sentLast];
          nextIndex := nextIndex[peer := sentLast + 1];
        }
        k := AdvanceCommitIndex();
      } else if peer in nextIndex && nextIndex[peer] > 1 {
        nextIndex := nextIndex[peer := if 1 > nextIndex[peer] - 1 then 1 else nextIndex[peer] - 1];
      }
    }

    /** The election loop's treatment of one reply: stop when no longer a candidate of that term, step
        down on a later term, else count; the vote that completes a majority makes it leader. */
    method HandleVoteReply(resp: T.RequestVoteResp, termStarted: nat, votes: nat) returns (counted: nat, stop: bool)
      modifies this
      ensures old(role) != T.Candidate || old(term) != termStarted ==>
                stop && counted == votes && State() == old(State())
      ensures old(role) == T.Candidate && old(term) == termStarted && resp.term > old(term) ==>
                stop && counted == votes && State() == T.BecomeFollower(old(State()), resp.term, None)
      ensures old(role) == T.Candidate && old(term) == termStarted && resp.term <= old(term) ==>
                && counted == votes + (if resp.voteGranted then 1 else 0) && (stop <==> 2 * counted > |peers| + 1)
                && State() == if stop then T.BecomeLeader(old(State())) else old(State())
    {
      counted, stop := votes, true;
      if role != T.Candidate || term != termStarted {
        return;
      }
      if resp.term > term {
        BecomeFollower(resp.term, None);
        return;
      }
      if resp.voteGranted {
        counted := counted + 1;
      }
      stop := counted >= (1 + |peers|) / 2 + 1;
      if stop {
        BecomeLeader();
      }
    }

    /** A proposal's treatment of one reply: give up when no longer leader, step down on a later term,
        else count; a strict majority, the proposer included, acknowledges it. */
    method HandleProposalReply(resp: T.AppendEntriesResp, acks: nat) returns (counted: nat, giveUp: bool, enough: bool)
      modifies this
      ensures giveUp <==> old(role) != T.Leader || resp.term > old(term)
      ensures State() == if old(role) != T.Leader || resp.term <= old(term) then old(State())
                         else T.BecomeFollower(old(State()), resp.term, None)
      ensures counted == if !giveUp && resp.success then acks + 1 else acks
      ensures enough <==> !giveUp && 2 * counted > |peers| + 1
    {
      counted, giveUp, enough := acks, true, false;
      if role != T.Leader {
        return;
      }
      if resp.term > term {
        BecomeFollower(resp.term, None);
        return;
      }
      giveUp := false;
      if resp.success {
        counted := counted + 1;
      }
      enough := counted >= (1 + |peers|) / 2 + 1;
    }

    /** The first critical section of ProposePut and ProposeDel: only a leader appends. */
    method PushEntry(op: Op) returns (ok: bool, e: T.Entry)
      modifies this
      ensures ok <==> old(role) == T.Leader
      ensures ok ==> e == T.Entry(old(term), op)
      ensures State() == if ok then old(State()).(log := old(log) + [e]) else old(State())
    {
      e := T.Entry(term, op);
      ok := role == T.Leader;
      if ok {
        log := log + [e];
      }
    }

    /** The second one: term and index are read again, without asking for the role or the entry. */
    method BuildProposal(e: T.Entry) returns (req: T.AppendEntriesReq)
      ensures req == T.ProposalRequest(State(), e)
    {
      var prev := if log == [] then 0xFFFF_FFFF_FFFF_FFFF else |log| - 1;
      req := T.AppendEntriesReq(term, id, prev, T.TermAt(log, prev), [e], 0);
    }

    /** The empty request that ends a proposal. */
    method BuildClosing() returns (req: T.AppendEntriesReq)
      ensures req == T.ClosingRequest(State())
    {
      req := T.AppendEntriesReq(term, id, |log|, T.TermAt(log, |log|), [], commit);
    }

    method HandleClosingReply(resp: T.AppendEntriesResp)
      modifies this
      ensures State() == if resp.term > old(term) then T.BecomeFollower(old(State()), resp.term, None) else old(State())
    {
      if resp.term > term {
        BecomeFollower(resp.term, None);
      }
    }

    /** The apply loop's body. */
    method ApplyNext() returns (have: bool)
      requires commit <= |log|
      modifies this
      ensures have <==> old(lastApplied) < old(commit)
      ensures State() == if have then T.ApplyNext(old(State())) else old(State())
    {
      have := lastApplied < commit;
      if have {
        var e := log[lastApplied];
        lastApplied := lastApplied + 1;
        match e.op {
          case Put(k, v) => store := store[k := v];
          case Del(k) => store := store - {k};
        }
      }
    }
  }
}
