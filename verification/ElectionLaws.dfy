/** What the election protocol guarantees over whole runs of rounds, and how rounds that elect
    nobody make progress. */
module ElectionLaws {
  import opened Bytes
  import opened Election

  /** One round by one elector, asking its peers in some order. */
  datatype Turn = Turn(elector: int, order: seq<int>)

  ghost predicate Enabled(st: Nodes, t: Turn) {
    t.elector in st && IsOrder(t.order, st[t.elector].view - {t.elector})
  }

  /** The state after a run of rounds; turns of dead electors do nothing. */
  ghost function Play(st: Nodes, turns: seq<Turn>): (end: Nodes)
    ensures end.Keys == st.Keys
  {
    if turns == [] then st
    else
      var before, t := Play(st, turns[..|turns| - 1]), turns[|turns| - 1];
      if t.elector in before then Round(before, t.elector, t.order).nodes else before
  }

  /** Every round of the run asks exactly the peers its elector then lists. */
  ghost predicate Possible(st: Nodes, turns: seq<Turn>) {
    turns != [] ==>
      var before := turns[..|turns| - 1];
      Possible(st, before) && Enabled(Play(st, before), turns[|turns| - 1])
  }

  /** The outcomes of a run's rounds, in order. */
  ghost function Outcomes(st: Nodes, turns: seq<Turn>): (os: seq<Outcome>)
    ensures |os| == |turns|
  {
    if turns == [] then []
    else
      var before, t := turns[..|turns| - 1], turns[|turns| - 1];
      var now := Play(st, before);
      Outcomes(st, before) + [if t.elector in now then Round(now, t.elector, t.order).outcome else NoVotes]
  }

  // ------------------------------------------------------------------ agreement

  /** A commit is unanimous, needs at least one answer, and picks a live node. */
  lemma ElectedIsUnanimous(st: Nodes, e: int, order: seq<int>, c: int)
    requires e in st && Round(st, e, order).outcome == Elected(c)
    ensures var rs := Gather(st, order).responses;
            rs != map[] && c in st && forall w :: w in rs ==> rs[w] == c
  {
    var b := Gather(st, order);
    forall w | w in b.responses ensures b.responses[w] == c {
      assert b.responses[w] in Answers(b.responses);
    }
    assert Answers(map[]) == {};
  }

  /** Elector e, asking in this order, commits c in a round in which w answered a. */
  ghost predicate CommitsHearing(st: Nodes, e: int, order: seq<int>, c: int, w: int, a: int) {
    && e in st && Round(st, e, order).outcome == Elected(c)
    && w in Gather(st, order).responses && Gather(st, order).responses[w] == a
  }

  /** Agreement by a shared responder: two electors that commit after hearing the same answer from
      one node commit the same leader, whatever else they heard and whenever they asked. */
  lemma SharedResponder(st: Nodes, e: int, order: seq<int>, c: int,
                        st': Nodes, e': int, order': seq<int>, c': int, w: int, a: int)
    requires CommitsHearing(st, e, order, c, w, a) && CommitsHearing(st', e', order', c', w, a)
    ensures c == c'
  {
    hide Round, Gather;
    ElectedIsUnanimous(st, e, order, c);
    ElectedIsUnanimous(st', e', order', c');
  }

  /** Node w recognises the live node leader, and is not it. */
  predicate Follows(st: Nodes, w: int, leader: int) {
    && w in st && leader in st && w != leader && 0 < leader
    && st[w].leader == leader && st[w].address == Some(leader)
  }

  lemma VoteKeepsFollows(st: Nodes, v: int, w: int, leader: int)
    requires Follows(st, w, leader) && v in st
    ensures Follows(Vote(st, v).nodes, w, leader)
    ensures Vote(st, w).answer == leader
  {
  }

  lemma {:induction false} GatherKeepsFollows(st: Nodes, order: seq<int>, w: int, leader: int)
    requires Follows(st, w, leader)
    ensures Follows(Gather(st, order).nodes, w, leader)
    ensures w in order ==> w in Gather(st, order).responses && Gather(st, order).responses[w] == leader
  {
    if order != [] {
      var init, v := order[..|order| - 1], order[|order| - 1];
      GatherKeepsFollows(st, init, w, leader);
      hide Vote, Follows;
      if v in st {
        VoteKeepsFollows(Gather(st, init).nodes, v, w, leader);
      }
      assert w in order ==> w == v || w in init;
      assert Follows(st, w, leader) ==> w in st && 0 < leader by { FollowsMeans(st, w, leader); }
    }
  }

  lemma FollowsMeans(st: Nodes, w: int, leader: int)
    ensures Follows(st, w, leader) ==> w in st && 0 < leader
  {
  }

  lemma DecideKeepsFollows(st: Nodes, e: int, votes: set<int>, w: int, leader: int)
    requires Follows(st, w, leader) && e in st && e != w
    ensures Follows(Decide(st, e, votes).nodes, w, leader)
  {
    hide Least;
  }

  lemma RoundKeepsFollows(st: Nodes, e: int, order: seq<int>, w: int, leader: int)
    requires Follows(st, w, leader) && e in st && e != w
    ensures Follows(Round(st, e, order).nodes, w, leader)
    ensures Round(st, e, order).outcome.Elected? && w in order ==> Round(st, e, order).outcome == Elected(leader)
  {
    GatherKeepsFollows(st, order, w, leader);
    var b := Gather(st, order);
    DecideKeepsFollows(b.nodes, e, Answers(b.responses), w, leader);
    hide Follows, Gather, Decide;
    if Round(st, e, order).outcome.Elected? {
      ElectedIsUnanimous(st, e, order, Round(st, e, order).outcome.leader);
    }
  }

  /** A node that follows a live leader keeps answering it, so in every run of other electors'
      rounds each commit that heard this node is a commit of that leader. */
  lemma {:induction false} RecognisedLeaderWins(st: Nodes, turns: seq<Turn>, w: int, leader: int)
    requires Follows(st, w, leader)
    requires forall i :: 0 <= i < |turns| ==> turns[i].elector != w
    ensures Follows(Play(st, turns), w, leader)
    ensures forall i :: 0 <= i < |turns| && Outcomes(st, turns)[i].Elected? && w in turns[i].order ==>
              Outcomes(st, turns)[i] == Elected(leader)
  {
    hide Round, Follows;
    if turns != [] {
      var before, t := turns[..|turns| - 1], turns[|turns| - 1];
      RecognisedLeaderWins(st, before, w, leader);
      if t.elector in Play(st, before) {
        RoundKeepsFollows(Play(st, before), t.elector, t.order, w, leader);
      }
    }
  }

  /** The answer of a node that has no live leader. */
  ghost function Answer(st: Nodes, w: int): int
    requires w in st
  {
    Least(st[w].view + {w})
  }

  /** Node w has no leader that would answer it. */
  predicate Silent(st: Nodes, w: int) {
    w in st && (st[w].leader <= 0 || st[w].address.None? || st[w].address.value !in st)
  }

  /** All that others' rounds do to a silent node w: live nodes enter its view. */
  predicate Grown(st: Nodes, st': Nodes, w: int) {
    && st'.Keys == st.Keys && Silent(st, w)
    && st'[w].leader == st[w].leader && st'[w].address == st[w].address
    && st[w].view <= st'[w].view <= st[w].view + st.Keys
  }

  lemma VoteGrows(st: Nodes, v: int, w: int)
    requires Silent(st, w) && v in st
    ensures Grown(st, Vote(st, v).nodes, w)
    ensures Vote(st, w) == Voted(st, Answer(st, w))
  {
    hide Least;
  }

  lemma {:induction false} GatherGrows(st: Nodes, order: seq<int>, w: int)
    requires Silent(st, w)
    ensures Grown(st, Gather(st, order).nodes, w)
  {
    if order != [] {
      var init, v := order[..|order| - 1], order[|order| - 1];
      GatherGrows(st, init, w);
      hide Vote;
      if v in st {
        VoteGrows(Gather(st, init).nodes, v, w);
      }
    }
  }

  lemma RoundGrows(st: Nodes, e: int, order: seq<int>, w: int)
    requires Silent(st, w) && e in st && e != w
    ensures Grown(st, Round(st, e, order).nodes, w)
  {
    GatherGrows(st, order, w);
    hide Gather, Least;
  }

  /** Over every run of other electors' rounds, whatever they commit, a silent node's view only
      gains live nodes. */
  lemma {:induction false} RunGrows(st: Nodes, turns: seq<Turn>, w: int)
    requires Silent(st, w) && forall i :: 0 <= i < |turns| ==> turns[i].elector != w
    ensures Grown(st, Play(st, turns), w)
  {
    hide Round;
    if turns != [] {
      var before, t := turns[..|turns| - 1], turns[|turns| - 1];
      RunGrows(st, before, w);
      if t.elector in st {
        RoundGrows(Play(st, before), t.elector, t.order, w);
      }
    }
  }

  /** So its answer stays what it was, unless it becomes a smaller live id. */
  lemma GrownAnswer(st: Nodes, st': Nodes, w: int)
    requires Grown(st, st', w)
    ensures Answer(st', w) == Answer(st, w) || (Answer(st', w) in st && Answer(st', w) < Answer(st, w))
  {
    assert IsLeast(Answer(st, w), st[w].view + {w}) && IsLeast(Answer(st', w), st'[w].view + {w});
    hide Least;
    assert st[w].view + {w} <= st'[w].view + {w};
  }

  lemma {:induction false} GatherHears(st: Nodes, order: seq<int>, w: int)
    requires Silent(st, w) && w in order && Answer(st, w) != -1
    requires forall n :: n in st ==> Answer(st, w) <= n
    ensures w in Gather(st, order).responses && Gather(st, order).responses[w] == Answer(st, w)
  {
    var init, v := order[..|order| - 1], order[|order| - 1];
    GatherGrows(st, init, w);
    var b := Gather(st, init);
    GrownAnswer(st, b.nodes, w);
    VoteGrows(b.nodes, w, w);
    hide Vote, Answer;
    assert w in order ==> w == v || w in init;
    if w != v {
      GatherHears(st, init, w);
    }
  }

  /** Agreement through an unchanged answer: when a node without a live leader answers an id that no
      live id is below, every commit of a run of other electors that hears it is that id, so any two
      of them agree. */
  lemma {:induction false} SteadyResponderAgreement(st: Nodes, turns: seq<Turn>, w: int)
    requires Silent(st, w) && Answer(st, w) != -1
    requires forall n :: n in st ==> Answer(st, w) <= n
    requires forall i :: 0 <= i < |turns| ==> turns[i].elector != w
    ensures forall i :: 0 <= i < |turns| && Outcomes(st, turns)[i].Elected? && w in turns[i].order ==>
              Outcomes(st, turns)[i] == Elected(Answer(st, w))
  {
    if turns != [] {
      hide Round, Answer, Silent;
      var before, t := turns[..|turns| - 1], turns[|turns| - 1];
      var now := Play(st, before);
      SteadyResponderAgreement(st, before, w);
      RunGrows(st, before, w);
      if t.elector in now && Round(now, t.elector, t.order).outcome.Elected? && w in t.order {
        SteadyRound(st, now, t, w);
      }
    }
  }

  lemma SteadyRound(st: Nodes, now: Nodes, t: Turn, w: int)
    requires Grown(st, now, w) && Answer(st, w) != -1 && forall n :: n in st ==> Answer(st, w) <= n
    requires t.elector in now && Round(now, t.elector, t.order).outcome.Elected? && w in t.order
    ensures Round(now, t.elector, t.order).outcome == Elected(Answer(st, w))
  {
    GrownAnswer(st, now, w);
    hide Round, Answer;
    GatherHears(now, t.order, w);
    ElectedIsUnanimous(now, t.elector, t.order, Round(now, t.elector, t.order).outcome.leader);
  }

  // ------------------------------------------------------------------ what a commit records

  /** Every live node is in its own node map. */
  predicate ListsItself(st: Nodes) {
    forall n :: n in st ==> n in st[n].view
  }

  lemma VoteKeepsListed(st: Nodes, w: int)
    requires ListsItself(st) && w in st
    ensures ListsItself(Vote(st, w).nodes)
  {
    hide Least;
  }

  lemma {:induction false} GatherKeepsListed(st: Nodes, order: seq<int>)
    requires ListsItself(st)
    ensures ListsItself(Gather(st, order).nodes)
  {
    if order != [] {
      var init, w := order[..|order| - 1], order[|order| - 1];
      GatherKeepsListed(st, init);
      hide Vote, ListsItself;
      if w in Gather(st, init).nodes {
        VoteKeepsListed(Gather(st, init).nodes, w);
      }
    }
  }

  lemma DecideRecords(st: Nodes, e: int, votes: set<int>)
    requires ListsItself(st) && e in st
    ensures var r := Decide(st, e, votes);
            ListsItself(r.nodes) &&
            (r.outcome.Elected? ==>
               e in r.nodes && r.nodes[e].leader == r.outcome.leader && r.nodes[e].address == Some(r.outcome.leader))
    ensures var r := Decide(st, e, votes);
            r.nodes.Keys == st.Keys && forall n :: n in st && n != e ==> r.nodes[n].leader == st[n].leader
  {
    hide Least;
  }

  lemma RoundRecords(st: Nodes, e: int, order: seq<int>)
    requires ListsItself(st) && e in st
    ensures var r := Round(st, e, order);
            ListsItself(r.nodes) &&
            (r.outcome.Elected? ==>
               e in r.nodes && r.nodes[e].leader == r.outcome.leader && r.nodes[e].address == Some(r.outcome.leader))
  {
    hide Decide, ListsItself;
    GatherKeepsListed(st, order);
    var b := Gather(st, order);
    DecideRecords(b.nodes, e, Answers(b.responses));
  }

  lemma {:induction false} PlayKeepsListed(st: Nodes, turns: seq<Turn>)
    requires ListsItself(st)
    ensures ListsItself(Play(st, turns))
  {
    if turns != [] {
      hide Round, ListsItself;
      var before, t := turns[..|turns| - 1], turns[|turns| - 1];
      PlayKeepsListed(st, before);
      if t.elector in Play(st, before) {
        RoundRecords(Play(st, before), t.elector, t.order);
      }
    }
  }

  /** A commit is recorded: right after a round of the run that elects c, its elector has c as its
      leader and c's address as its leader address, whatever leader it had recorded before. */
  lemma CommitIsRecorded(st: Nodes, turns: seq<Turn>, c: int)
    requires ListsItself(st) && turns != [] && Outcomes(st, turns)[|turns| - 1] == Elected(c)
    ensures var e := turns[|turns| - 1].elector;
            e in st && Play(st, turns)[e].leader == c && Play(st, turns)[e].address == Some(c) && c in st
  {
    var before, t := turns[..|turns| - 1], turns[|turns| - 1];
    hide Round, ListsItself;
    PlayKeepsListed(st, before);
    RoundRecords(Play(st, before), t.elector, t.order);
    ElectedIsUnanimous(Play(st, before), t.elector, t.order, c);
  }

  lemma LastTurn(st: Nodes, turns: seq<Turn>, t: Turn)
    ensures var now := Play(st, turns);
            Play(st, turns + [t]) == (if t.elector in now then Round(now, t.elector, t.order).nodes else now) &&
            Outcomes(st, turns + [t])
              == Outcomes(st, turns) + [if t.elector in now then Round(now, t.elector, t.order).outcome else NoVotes]
  {
    hide Round;
    assert (turns + [t])[..|turns|] == turns;
  }

  lemma Regroup<T>(a: seq<T>, b: seq<T>, c: seq<T>)
    ensures a + b + c == a + (b + c)
  {
  }

  lemma PlayNone(st: Nodes, a: seq<Turn>)
    ensures a + [] == a && Outcomes(st, a) + [] == Outcomes(st, a)
    ensures Play(Play(st, a), []) == Play(st, a) && Outcomes(Play(st, a), []) == []
  {
    hide Round;
  }

  lemma {:induction false} PlayBoth(st: Nodes, a: seq<Turn>, b: seq<Turn>)
    ensures Play(st, a + b) == Play(Play(st, a), b)
    ensures Outcomes(st, a + b) == Outcomes(st, a) + Outcomes(Play(st, a), b)
  {
    if b == [] {
      PlayNone(st, a);
    } else {
      hide *;
      var init, t := b[..|b| - 1], b[|b| - 1];
      assert init + [t] == b;
      Regroup(a, init, [t]);
      PlayBoth(st, a, init);
      LastTurn(st, a + init, t);
      LastTurn(Play(st, a), init, t);
      var now := Play(st, a + init);
      var o := if t.elector in now then Round(now, t.elector, t.order).outcome else NoVotes;
      Regroup(Outcomes(st, a), Outcomes(Play(st, a), init), [o]);
    }
  }

  lemma OutcomeSplit(st: Nodes, turns: seq<Turn>, i: nat, j: nat)
    requires i < |turns| && j < |turns|
    ensures Play(st, turns) == Play(Play(st, turns[..i + 1]), turns[i + 1..])
    ensures Outcomes(st, turns)[j] ==
      if j <= i then Outcomes(st, turns[..i + 1])[j] else Outcomes(Play(st, turns[..i + 1]), turns[i + 1..])[j - i - 1]
  {
    assert turns[..i + 1] + turns[i + 1..] == turns;
    hide Play, Outcomes;
    PlayBoth(st, turns[..i + 1], turns[i + 1..]);
  }

  /** A commit lasts: after e has elected c, another node with a positive id, every later commit of
      others' rounds that hears e elects c, and e keeps c as its leader. */
  lemma CommitLasts(st: Nodes, turns: seq<Turn>, i: nat, c: int)
    requires ListsItself(st) && i < |turns| && Outcomes(st, turns)[i] == Elected(c)
    requires turns[i].elector != c && 0 < c
    requires forall j :: i < j < |turns| ==> turns[j].elector != turns[i].elector
    ensures var e := turns[i].elector;
            e in st && Play(st, turns)[e].leader == c && Play(st, turns)[e].address == Some(c) &&
            forall j :: i < j < |turns| && Outcomes(st, turns)[j].Elected? && e in turns[j].order ==>
              Outcomes(st, turns)[j] == Elected(c)
  {
    var e, a, b := turns[i].elector, turns[..i + 1], turns[i + 1..];
    hide Play, Outcomes, ListsItself;
    OutcomeSplit(st, turns, i, i);
    CommitIsRecorded(st, a, c);
    assert Follows(Play(st, a), e, c);
    assert forall j :: 0 <= j < |b| ==> b[j] == turns[i + 1 + j];
    RecognisedLeaderWins(Play(st, a), b, e, c);
    forall j | i < j < |turns| && Outcomes(st, turns)[j].Elected? && e in turns[j].order
      ensures Outcomes(st, turns)[j] == Elected(c)
    {
      OutcomeSplit(st, turns, i, j);
      assert b[j - i - 1] == turns[j];
    }
  }

  // ------------------------------------------------------------------ common view

  /** Every live node has the view s, which holds all live nodes and whose least member m is alive;
      the only leader recognised so far, if any, is m. */
  predicate CommonView(st: Nodes, s: set<int>, m: int) {
    && st.Keys <= s && m in st && IsLeast(m, s)
    && forall n :: n in st ==> st[n].view == s && (st[n].leader == 0 || (st[n].leader == m && st[n].address == Some(m)))
  }

  lemma CommonVote(st: Nodes, s: set<int>, m: int, w: int)
    requires CommonView(st, s, m) && w in st
    ensures Vote(st, w) == Voted(st, m)
  {
    assert s + {w} == s;
  }

  lemma {:induction false} CommonGather(st: Nodes, s: set<int>, m: int, order: seq<int>)
    requires CommonView(st, s, m)
    ensures Gather(st, order).nodes == st
    ensures forall w :: w in Gather(st, order).responses <==> w in order && w in st && m != -1
    ensures forall w :: w in Gather(st, order).responses ==> Gather(st, order).responses[w] == m
  {
    if order != [] {
      var init, w := order[..|order| - 1], order[|order| - 1];
      CommonGather(st, s, m, init);
      if w in st {
        CommonVote(st, s, m, w);
      }
      hide Vote, CommonView;
      assert forall v :: v in order <==> v in init || v == w;
    }
  }

  lemma CommonDecide(st: Nodes, s: set<int>, m: int, e: int)
    requires CommonView(st, s, m) && e in st
    ensures var r := Decide(st, e, {m}); r.outcome == Elected(m) && CommonView(r.nodes, s, m) && r.nodes.Keys == st.Keys
  {
    assert Least({m}) == m;
  }

  /** One round under a common view with another live node: it elects the least id, whichever way
      the voters answer, except that the id -1 can never be elected. */
  lemma CommonRound(st: Nodes, s: set<int>, m: int, t: Turn, peer: int)
    requires CommonView(st, s, m) && Enabled(st, t) && peer in st && peer != t.elector
    ensures var r := Round(st, t.elector, t.order);
            r.outcome == (if m == -1 then NoVotes else Elected(m)) &&
            CommonView(r.nodes, s, m) && r.nodes.Keys == st.Keys
  {
    CommonGather(st, s, m, t.order);
    var responses := Gather(st, t.order).responses;
    CommonDecide(st, s, m, t.elector);
    assert peer in t.order;
    if m != -1 {
      assert Answers(responses) == {m} by {
        assert responses[peer] == m;
      }
    } else {
      assert responses == map[] && Answers(map[]) == {};
    }
    hide Gather, Vote;
  }

  /** Over every run of rounds from a common view of at least two live nodes, every round elects
      the least id, and its elector records it, if and only if that id is not -1. */
  lemma {:induction false} CommonViewElection(st: Nodes, s: set<int>, m: int, turns: seq<Turn>, p: int, q: int)
    requires CommonView(st, s, m) && Possible(st, turns)
    requires p in st && q in st && p != q
    ensures CommonView(Play(st, turns), s, m)
    ensures forall i :: 0 <= i < |turns| ==> (Outcomes(st, turns)[i] == Elected(m) <==> m != -1)
    ensures m != -1 && turns != [] ==>
      var e := turns[|turns| - 1].elector;
      e in st && Play(st, turns)[e].leader == m && Play(st, turns)[e].address == Some(m)
  {
    hide Round, CommonView, ListsItself;
    if turns != [] {
      var before, t := turns[..|turns| - 1], turns[|turns| - 1];
      CommonViewElection(st, s, m, before, p, q);
      CommonRound(Play(st, before), s, m, t, if t.elector == p then q else p);
      if m != -1 {
        CommonListsItself(st, s, m);
        CommitIsRecorded(st, turns, m);
      }
    }
  }

  lemma CommonListsItself(st: Nodes, s: set<int>, m: int)
    requires CommonView(st, s, m)
    ensures ListsItself(st)
  {
  }

  // ------------------------------------------------------------------ retries

  /** No live node has a leader that would answer it. */
  predicate Leaderless(st: Nodes) {
    forall n :: n in st ==> Silent(st, n)
  }

  lemma {:induction false} LeaderlessGather(st: Nodes, order: seq<int>)
    requires Leaderless(st)
    ensures Gather(st, order).nodes == st
    ensures forall w :: w in Gather(st, order).responses ==>
              w in order && w in st && Gather(st, order).responses[w] == Least(st[w].view + {w})
    ensures forall w :: w in order && w in st && Least(st[w].view + {w}) != -1 ==> w in Gather(st, order).responses
  {
    if order != [] {
      LeaderlessGather(st, order[..|order| - 1]);
      assert forall v :: v in order <==> v in order[..|order| - 1] || v == order[|order| - 1];
    }
  }

  /** The (node, entry) pairs in which a live node still lists a dead one. */
  function DeadEntries(st: Nodes): set<(int, int)> {
    set n, d | n in st && d in st[n].view && d !in st :: (n, d)
  }

  /** A round without a commit. */
  predicate Retries(r: Result) {
    !r.outcome.Elected?
  }

  /** A disagreeing or voteless round changes nothing; an unconfirmed candidate is dropped exactly
      when the elector lists it, it is then a dead node, and nothing else changes. */
  lemma RetryEffect(st: Nodes, e: int, order: seq<int>)
    requires Leaderless(st) && e in st && Retries(Round(st, e, order))
    ensures var r := Round(st, e, order);
            r.nodes.Keys == st.Keys && Leaderless(r.nodes) &&
            (forall n :: n in st && n != e ==> r.nodes[n] == st[n]) &&
            if r.outcome.Unconfirmed? && r.outcome.candidate in st[e].view
            then r.outcome.candidate !in st && r.nodes[e] == st[e].(view := st[e].view - {r.outcome.candidate})
            else r.nodes == st
  {
    LeaderlessGather(st, order);
    hide Gather;
    var c := Round(st, e, order).outcome;
    if c.Unconfirmed? && c.candidate !in st[e].view {
      assert st[e].view - {c.candidate} == st[e].view;
      assert st[e := st[e]] == st;
    }
  }

  /** What one retry does to the number of dead entries. */
  lemma RetryShrinks(st: Nodes, e: int, order: seq<int>)
    requires Leaderless(st) && e in st && Retries(Round(st, e, order))
    ensures var st' := Round(st, e, order).nodes;
            (forall n :: n in st ==> st'[n].view * st.Keys == st[n].view * st.Keys) &&
            |DeadEntries(st)| == |DeadEntries(st')| + if st' == st then 0 else 1
  {
    RetryEffect(st, e, order);
    var r := Round(st, e, order);
    hide Round, Leaderless;
    if r.nodes != st {
      var c := r.outcome.candidate;
      assert (e, c) in DeadEntries(st);
      assert DeadEntries(r.nodes) == DeadEntries(st) - {(e, c)};
    }
  }

  /** How many rounds of a run changed a view. */
  ghost function Shrinks(st: Nodes, turns: seq<Turn>): nat {
    if turns == [] then 0
    else
      var before := turns[..|turns| - 1];
      Shrinks(st, before) + if Play(st, turns) == Play(st, before) then 0 else 1
  }

  /** Over every run of rounds in which nobody is elected, the number of view-changing rounds is
      exactly the number of dead entries dropped, so it is at most the number there were at first,
      and no live entry is ever lost. */
  lemma {:induction false} RetryMeasure(st: Nodes, turns: seq<Turn>)
    requires Leaderless(st)
    requires forall i :: 0 <= i < |turns| ==> !Outcomes(st, turns)[i].Elected?
    ensures Leaderless(Play(st, turns))
    ensures Shrinks(st, turns) + |DeadEntries(Play(st, turns))| == |DeadEntries(st)|
    ensures forall n :: n in st ==> Play(st, turns)[n].view * st.Keys == st[n].view * st.Keys
  {
    hide Round, Leaderless, DeadEntries;
    if turns != [] {
      var before, t := turns[..|turns| - 1], turns[|turns| - 1];
      forall i | 0 <= i < |before| ensures !Outcomes(st, before)[i].Elected? {
        assert Outcomes(st, turns)[i] == Outcomes(st, before)[i];
      }
      RetryMeasure(st, before);
      var now := Play(st, before);
      if t.elector in now {
        assert Outcomes(st, turns)[|before|] == Round(now, t.elector, t.order).outcome;
        RetryEffect(now, t.elector, t.order);
        RetryShrinks(now, t.elector, t.order);
      }
    }
  }
}
