/** The middle of a failover, where some nodes record a live leader and others do not: exactly which
    states, of whatever kind, are stalled, and which rounds elect. */
module Failover {
  import opened Election
  import opened ElectionLaws
  import opened Stalling

  /** Voting leaves no trace: the node records no live leader, or its last heartbeat already listed it
      there and gave it the leader's view. */
  predicate Calm(st: Nodes, w: int)
    requires w in st
  {
    var n := st[w];
    n.leader <= 0 || n.address.None? || n.address.value !in st
    || (w in st[n.address.value].view && n.view == st[n.address.value].view)
  }

  lemma CalmIff(st: Nodes, w: int)
    requires w in st
    ensures Vote(st, w).nodes == st <==> Calm(st, w)
  {
    hide Least;
    var n := st[w];
    if n.leader > 0 && n.address.Some? && n.address.value in st {
      var a := n.address.value;
      var after := Vote(st, w).nodes;
      assert after[w].view == st[a].view + {w} && after[a].view == st[a].view + {w};
      if after == st {
        assert after[w] == st[w] && after[a] == st[a];
      }
      if Calm(st, w) {
        assert st[a].view + {w} == st[a].view;
        assert forall m :: m in st ==> after[m] == st[m];
      }
    }
  }

  /** Voting twice is voting once. */
  lemma VoteCalms(st: Nodes, w: int)
    requires w in st
    ensures var after := Vote(st, w).nodes; after.Keys == st.Keys && Calm(after, w)
  {
    hide Least;
  }

  /** Voters that an elector lists never change the elector's own entry. */
  lemma VoteKeepsElector(st: Nodes, w: int, e: int)
    requires w in st && e in st && w != e && w in st[e].view
    ensures e in Vote(st, w).nodes && Vote(st, w).nodes[e] == st[e]
  {
    hide Least;
    assert st[e].view + {w} == st[e].view;
  }

  lemma {:induction false} GatherKeepsElector(st: Nodes, order: seq<int>, e: int)
    requires e in st && forall w :: w in order ==> w in st[e].view && w != e
    ensures Gather(st, order).nodes[e] == st[e]
  {
    if order != [] {
      var init, w := order[..|order| - 1], order[|order| - 1];
      assert w in order && forall v :: v in init ==> v in order;
      GatherKeepsElector(st, init, e);
      var b := Gather(st, init);
      hide Vote;
      if w in b.nodes {
        assert w in b.nodes[e].view;
        VoteKeepsElector(b.nodes, w, e);
      }
    }
  }

  /** A round that leaves no trace and retries had votes that left none. */
  lemma QuietRound(st: Nodes, e: int, order: seq<int>)
    requires e in st && forall w :: w in order ==> w in st[e].view && w != e
    requires Round(st, e, order).nodes == st && Retries(Round(st, e, order))
    ensures Gather(st, order).nodes == st
  {
    GatherKeepsElector(st, order, e);
    var b := Gather(st, order);
    hide Gather, Least;
    assert forall n :: n in st && n != e ==> b.nodes[n] == Round(st, e, order).nodes[n];
  }

  /** The last of the voters is calm afterwards. */
  lemma LastIsCalm(st: Nodes, order: seq<int>, w: int)
    requires w in st
    ensures Calm(Gather(st, order + [w]).nodes, w)
  {
    GatherAppend(st, order, w);
    hide Gather, Vote, Calm;
    VoteCalms(Gather(st, order).nodes, w);
  }

  // ------------------------------------------------------------------ calm electors

  /** All live peers of an elector are calm. */
  predicate CalmPeers(st: Nodes, e: int)
    requires e in st
  {
    forall w :: w in st[e].view && w != e && w in st ==> Calm(st, w)
  }

  /** The answers that an elector gets from calm peers, in whatever order it asks. */
  ghost function Said(st: Nodes, e: int): set<int>
    requires e in st
  {
    set w | w in st[e].view && w != e && w in st && Vote(st, w).answer != -1 :: Vote(st, w).answer
  }

  lemma {:induction false} CalmGather(st: Nodes, order: seq<int>)
    requires forall w :: w in order && w in st ==> Calm(st, w)
    ensures Gather(st, order).nodes == st
    ensures forall w :: w in Gather(st, order).responses ==>
              w in order && w in st && Gather(st, order).responses[w] == Vote(st, w).answer
    ensures forall w :: w in order && w in st && Vote(st, w).answer != -1 ==> w in Gather(st, order).responses
  {
    if order != [] {
      var init, w := order[..|order| - 1], order[|order| - 1];
      assert forall v :: v in order <==> v in init || v == w;
      CalmGather(st, init);
      hide Vote, Calm;
      if w in st {
        CalmIff(st, w);
      }
    }
  }

  lemma CalmRound(st: Nodes, t: Turn)
    requires Enabled(st, t) && CalmPeers(st, t.elector)
    ensures Round(st, t.elector, t.order) == Decide(st, t.elector, Said(st, t.elector))
  {
    hide Gather, Least, Vote, Calm;
    var e, responses := t.elector, Gather(st, t.order).responses;
    CalmGather(st, t.order);
    forall w | w in responses ensures responses[w] in Said(st, e) {
      assert w in st[e].view - {e};
    }
    forall w | w in st[e].view && w != e && w in st && Vote(st, w).answer != -1
      ensures Vote(st, w).answer in Answers(responses)
    {
      assert w in t.order && w in responses;
    }
    assert Answers(responses) == Said(st, e);
  }

  /** Which rounds elect: with calm peers, a round elects c, in whatever order it asks, if and only if
      c is the one answer given, listed by the elector and alive. */
  lemma ElectsIff(st: Nodes, t: Turn, c: int)
    requires Enabled(st, t) && CalmPeers(st, t.elector)
    ensures Round(st, t.elector, t.order).outcome == Elected(c)
       <==> Said(st, t.elector) == {c} && c in st[t.elector].view && c in st
  {
    CalmRound(st, t);
    DecideCases(st, t.elector, Said(st, t.elector), c);
    hide Round, Decide, Said;
  }

  // ------------------------------------------------------------------ stalled, exactly

  /** The elector hears no answer, several answers, or one for a node it does not list. */
  ghost predicate HearsNothingNew(st: Nodes, e: int)
    requires e in st
  {
    forall c :: Said(st, e) == {c} ==> c !in st[e].view
  }

  lemma StalledPeersAreCalm(st: Nodes, e: int, w: int)
    requires Stalled(st) && e in st && w in st[e].view && w != e && w in st
    ensures Calm(st, w)
  {
    var peers := st[e].view - {e};
    OrderExists(peers - {w});
    var order :| IsOrder(order, peers - {w});
    OrderAppend(order, peers - {w}, w);
    assert peers - {w} + {w} == peers;
    hide Round, Calm;
    assert Enabled(st, Turn(e, order + [w]));
    QuietRound(st, e, order + [w]);
    LastIsCalm(st, order, w);
  }

  /** Any state, of any number of nodes, with or without live leaders, is stalled if and only if no
      vote would leave a trace and every elector hears no answer, several, or one for a node it does
      not list. */
  lemma AnyStalledIff(st: Nodes)
    ensures Stalled(st) <==> forall e :: e in st ==> CalmPeers(st, e) && HearsNothingNew(st, e)
  {
    hide Round, Retries, HearsNothingNew, CalmPeers, Calm;
    if Stalled(st) {
      forall e | e in st ensures CalmPeers(st, e) && HearsNothingNew(st, e) {
        StalledMeans(st, e);
      }
    }
    if forall e :: e in st ==> CalmPeers(st, e) && HearsNothingNew(st, e) {
      forall t | Enabled(st, t)
        ensures Round(st, t.elector, t.order).nodes == st && Retries(Round(st, t.elector, t.order))
      {
        CalmTurn(st, t);
      }
    }
  }

  lemma CalmTurn(st: Nodes, t: Turn)
    requires Enabled(st, t) && CalmPeers(st, t.elector)
    ensures (Round(st, t.elector, t.order).nodes == st && Retries(Round(st, t.elector, t.order)))
       <==> HearsNothingNew(st, t.elector)
  {
    CalmRound(st, t);
    DecideCases(st, t.elector, Said(st, t.elector), 0);
    hide Round, Decide, Said;
  }

  lemma StalledMeans(st: Nodes, e: int)
    requires Stalled(st) && e in st
    ensures CalmPeers(st, e) && HearsNothingNew(st, e)
  {
    hide Round, Calm, HearsNothingNew, Said;
    forall w | w in st[e].view && w != e && w in st ensures Calm(st, w) {
      StalledPeersAreCalm(st, e, w);
    }
    OrderExists(st[e].view - {e});
    var order :| IsOrder(order, st[e].view - {e});
    assert Enabled(st, Turn(e, order));
    CalmTurn(st, Turn(e, order));
  }

  /** A leader that one peer follows and a least id that another answers: an elector that lists both
      is stuck until one of them changes. */
  lemma SplitFailover(st: Nodes, t: Turn, w: int, v: int)
    requires Enabled(st, t) && CalmPeers(st, t.elector)
    requires {w, v} <= st[t.elector].view - {t.elector} && {w, v} <= st.Keys
    requires Follows(st, w, st[w].leader) && Silent(st, v)
    requires Least(st[v].view + {v}) != -1 && Least(st[v].view + {v}) != st[w].leader
    ensures Round(st, t.elector, t.order) == Result(st, Disagree)
  {
    CalmRound(st, t);
    var a, b := Vote(st, w).answer, Vote(st, v).answer;
    assert a != -1 && b != -1 && a != b;
    hide Least, Vote, Silent, Follows;
    assert a in Said(st, t.elector) && b in Said(st, t.elector);
  }
}
