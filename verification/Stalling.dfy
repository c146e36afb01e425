/** When an election without a recorded leader makes no progress: which states are stalled, that
    every other state has a run that elects or stalls, and what one elector alone can reach. */
module Stalling {
  import opened Bytes
  import opened Collections
  import opened Election
  import opened ElectionLaws

  /** No round that is possible now changes anything or elects anyone. */
  ghost predicate Stalled(st: Nodes) {
    forall t :: Enabled(st, t) ==>
      Round(st, t.elector, t.order).nodes == st && Retries(Round(st, t.elector, t.order))
  }

  /** A stalled state stays as it is over every run, and nobody is ever elected. */
  lemma {:induction false} StalledForever(st: Nodes, turns: seq<Turn>)
    requires Stalled(st) && Possible(st, turns)
    ensures Play(st, turns) == st
    ensures forall i :: 0 <= i < |turns| ==> !Outcomes(st, turns)[i].Elected?
  {
    hide Round;
    if turns != [] {
      StalledForever(st, turns[..|turns| - 1]);
      assert Enabled(st, turns[|turns| - 1]);
    }
  }

  /** The answers an elector gets in a leaderless state, whatever order it asks in. */
  ghost function Heard(st: Nodes, e: int): set<int>
    requires e in st
  {
    set w | w in st[e].view && w != e && w in st && Least(st[w].view + {w}) != -1 :: Least(st[w].view + {w})
  }

  /** The elector hears no answer, several answers, or one for a node it does not list. */
  ghost predicate Stuck(st: Nodes, e: int)
    requires e in st
  {
    forall c :: Heard(st, e) == {c} ==> c !in st[e].view
  }

  lemma LeaderlessRound(st: Nodes, t: Turn)
    requires Leaderless(st) && Enabled(st, t)
    ensures Round(st, t.elector, t.order) == Decide(st, t.elector, Heard(st, t.elector))
  {
    LeaderlessGather(st, t.order);
    hide Gather, Least, Leaderless;
    var e, responses := t.elector, Gather(st, t.order).responses;
    forall w | w in responses ensures responses[w] in Heard(st, e) {
      assert w in st[e].view - {e};
    }
    forall w | w in st[e].view && w != e && w in st && Least(st[w].view + {w}) != -1
      ensures Least(st[w].view + {w}) in Answers(responses)
    {
      assert w in t.order && w in responses;
    }
    assert Answers(responses) == Heard(st, e);
  }

  /** The round commits c exactly when c is the only answer, listed and alive; it changes nothing
      and retries exactly when the elector is stuck. */
  lemma DecideCases(st: Nodes, e: int, votes: set<int>, c: int)
    requires e in st
    ensures Decide(st, e, votes).outcome == Elected(c) <==> votes == {c} && c in st[e].view && c in st
    ensures (Decide(st, e, votes).nodes == st && Retries(Decide(st, e, votes)))
       <==> (forall v :: votes == {v} ==> v !in st[e].view)
  {
    if votes != {} {
      var least := Least(votes);
      if Unanimous(votes, least) {
        assert forall x :: x in votes <==> x in {least};
        assert votes == {least};
        if least !in st[e].view {
          assert st[e].view - {least} == st[e].view && st[e := st[e]] == st;
        }
      } else {
        var v :| v in votes && v != least;
        assert forall x :: votes == {x} ==> v == x && least == x;
      }
    }
  }

  /** Termination, exactly: a leaderless state, of any number of nodes, is stalled if and only if
      every live node is stuck. */
  lemma StalledIff(st: Nodes)
    requires Leaderless(st)
    ensures Stalled(st) <==> forall e :: e in st ==> Stuck(st, e)
  {
    forall t | Enabled(st, t)
      ensures (Round(st, t.elector, t.order).nodes == st && Retries(Round(st, t.elector, t.order)))
         <==> Stuck(st, t.elector)
    {
      LeaderlessRound(st, t);
      DecideCases(st, t.elector, Heard(st, t.elector), 0);
    }
    hide Round, Retries, Leaderless, Stuck;
    forall e | e in st ensures exists order :: Enabled(st, Turn(e, order)) {
      OrderExists(st[e].view - {e});
      var order :| IsOrder(order, st[e].view - {e});
      assert Enabled(st, Turn(e, order));
    }
    if Stalled(st) {
      forall e | e in st ensures Stuck(st, e) {
        var order :| Enabled(st, Turn(e, order));
      }
    }
  }

  /** The run's last round committed somebody, or the run has reached a stalled state. */
  ghost predicate Settled(st: Nodes, turns: seq<Turn>) {
    (turns != [] && Outcomes(st, turns)[|turns| - 1].Elected?) || Stalled(Play(st, turns))
  }

  /** From every leaderless state some run commits or stalls, and it needs no more rounds than there
      are dead entries, and one. */
  lemma ElectsOrStalls(st: Nodes) returns (turns: seq<Turn>)
    requires Leaderless(st)
    ensures Possible(st, turns) && Settled(st, turns) && |turns| <= |DeadEntries(st)| + 1
  {
    turns := ExtendUntilSettled(st, []);
  }

  lemma {:induction false} ExtendUntilSettled(st: Nodes, turns: seq<Turn>) returns (more: seq<Turn>)
    requires Possible(st, turns) && Leaderless(Play(st, turns))
    ensures Possible(st, more) && Settled(st, more)
    ensures |more| <= |turns| + |DeadEntries(Play(st, turns))| + 1
    decreases |DeadEntries(Play(st, turns))|
  {
    var now := Play(st, turns);
    hide Round, Leaderless, DeadEntries;
    if Stalled(now) {
      return turns;
    }
    var t :| Enabled(now, t) &&
      !(Round(now, t.elector, t.order).nodes == now && Retries(Round(now, t.elector, t.order)));
    more := turns + [t];
    assert more[..|turns|] == turns;
    if Retries(Round(now, t.elector, t.order)) {
      RetryEffect(now, t.elector, t.order);
      RetryShrinks(now, t.elector, t.order);
      more := ExtendUntilSettled(st, more);
    }
  }

  // ------------------------------------------------------------------ one elector retrying

  /** The state differs from st at most in dead entries of e's own view. */
  predicate SameButOwnDead(st: Nodes, now: Nodes, e: int) {
    && now.Keys == st.Keys && e in st && Leaderless(now)
    && (forall n :: n in st && n != e ==> now[n] == st[n])
    && now[e].view * st.Keys == st[e].view * st.Keys
  }

  /** The elector's own drops do not change what it hears. */
  lemma SameHeard(st: Nodes, now: Nodes, e: int)
    requires SameButOwnDead(st, now, e)
    ensures Heard(now, e) == Heard(st, e)
    ensures forall c :: c in st ==> (c in now[e].view <==> c in st[e].view)
  {
    forall c | c in st ensures c in now[e].view <==> c in st[e].view {
      assert c in now[e].view * st.Keys <==> c in st[e].view * st.Keys;
    }
    hide Least;
  }

  /** The first round decides: from a leaderless state, while no other node runs rounds, an elector
      that retries commits at some attempt if and only if it commits at the first. */
  lemma RetryingAloneIsFutile(st: Nodes, turns: seq<Turn>, e: int)
    requires Leaderless(st) && turns != [] && Possible(st, turns)
    requires forall i :: 0 <= i < |turns| ==> turns[i].elector == e
    ensures (exists i :: 0 <= i < |turns| && Outcomes(st, turns)[i].Elected?) <==> Outcomes(st, turns)[0].Elected?
  {
    hide Leaderless, Possible;
    if !Outcomes(st, turns)[0].Elected? {
      RetriesAlone(st, turns, e);
    }
    hide Outcomes;
  }

  lemma {:induction false} RetriesAlone(st: Nodes, turns: seq<Turn>, e: int)
    requires Leaderless(st) && turns != [] && Possible(st, turns) && !Outcomes(st, turns)[0].Elected?
    requires forall i :: 0 <= i < |turns| ==> turns[i].elector == e
    ensures SameButOwnDead(st, Play(st, turns), e)
    ensures forall i :: 0 <= i < |turns| ==> !Outcomes(st, turns)[i].Elected?
  {
    hide Round, Leaderless, SameButOwnDead;
    var n := |turns| - 1;
    var before, t := turns[..n], turns[n];
    if n == 0 {
      FirstRetry(st, t);
    } else {
      assert Outcomes(st, turns)[0] == Outcomes(st, before)[0];
      RetriesAlone(st, before, e);
      FirstRound(st, before);
      LaterRetry(st, Play(st, before), turns[0], t);
    }
  }

  lemma {:induction false} FirstRound(st: Nodes, turns: seq<Turn>)
    requires turns != [] && Possible(st, turns)
    ensures Enabled(st, turns[0])
    ensures Outcomes(st, turns)[0] == Round(st, turns[0].elector, turns[0].order).outcome
  {
    hide Round;
    if |turns| > 1 {
      FirstRound(st, turns[..|turns| - 1]);
    }
  }

  lemma FirstRetry(st: Nodes, t: Turn)
    requires Leaderless(st) && Enabled(st, t) && Retries(Round(st, t.elector, t.order))
    ensures SameButOwnDead(st, Round(st, t.elector, t.order).nodes, t.elector)
  {
    RetryEffect(st, t.elector, t.order);
    hide Round, Leaderless;
  }

  lemma LaterRetry(st: Nodes, now: Nodes, first: Turn, t: Turn)
    requires SameButOwnDead(st, now, t.elector) && Leaderless(st)
    requires Enabled(st, first) && first.elector == t.elector && Retries(Round(st, first.elector, first.order))
    requires Enabled(now, t)
    ensures Retries(Round(now, t.elector, t.order))
    ensures SameButOwnDead(st, Round(now, t.elector, t.order).nodes, t.elector)
  {
    var e := t.elector;
    LeaderlessRound(st, first);
    LeaderlessRound(now, t);
    SameHeard(st, now, e);
    hide Heard, Round, Leaderless;
    var r := Decide(now, e, Heard(st, e));
    if r.outcome.Elected? {
      DecideCases(now, e, Heard(st, e), r.outcome.leader);
      DecideCases(st, e, Heard(st, e), r.outcome.leader);
    } else {
      RetryEffect(now, e, t.order);
    }
  }

  // ------------------------------------------------------------------ stalled examples

  /** Three survivors, of which a has already dropped the dead node d. */
  ghost function Trio(a: int, b: int, c: int, d: int): Nodes {
    map[a := Node({a, b, c}, 0, None), b := Node({a, b, c, d}, 0, None), c := Node({a, b, c, d}, 0, None)]
  }

  lemma LeastIs(m: int, s: set<int>)
    requires IsLeast(m, s)
    ensures Least(s) == m
  {
  }

  /** What the three hear: a hears d from both others, each of those hears a's least id and d. */
  lemma TrioHears(a: int, b: int, c: int, d: int)
    requires d < a && d < b && d < c && a != b && b != c && a != c
    ensures var st, m := Trio(a, b, c, d), Least({a, b, c});
            Leaderless(st) && st.Keys == {a, b, c} && d < m &&
            Heard(st, a) == {d} - {-1} && Heard(st, b) == {m, d} - {-1} && Heard(st, c) == {m, d} - {-1}
  {
    var st, m := Trio(a, b, c, d), Least({a, b, c});
    assert {a, b, c} + {a} == {a, b, c};
    LeastIs(d, {a, b, c, d} + {b});
    LeastIs(d, {a, b, c, d} + {c});
    hide Least;
    assert st[a].view == {a, b, c} && st[b].view == st[c].view == {a, b, c, d};
    MemberHears(st, a, b, c);
    MemberHears(st, b, a, c);
    MemberHears(st, c, a, b);
  }

  lemma MemberHears(st: Nodes, e: int, v: int, w: int)
    requires st.Keys == {e, v, w} && e != v && e != w && {v, w} <= st[e].view
    ensures Heard(st, e) == {Least(st[v].view + {v}), Least(st[w].view + {w})} - {-1}
  {
    hide Least;
    var all := {Least(st[v].view + {v}), Least(st[w].view + {w})} - {-1};
    forall x | x in all ensures x in Heard(st, e) {
      assert v in st[e].view && w in st[e].view;
    }
  }

  lemma HearsOne(st: Nodes, e: int, p: int)
    requires e in st && Heard(st, e) == {p}
    ensures Stuck(st, e) <==> p !in st[e].view
  {
    hide Heard;
  }

  lemma HearsTwo(st: Nodes, e: int, p: int, q: int)
    requires e in st && Heard(st, e) == {p, q} && p != q
    ensures Stuck(st, e)
  {
    hide Heard;
    assert p in Heard(st, e) && q in Heard(st, e);
  }

  lemma TrioStuck(a: int, b: int, c: int, d: int)
    requires d < a && d < b && d < c && a != b && b != c && a != c
    ensures var st, m := Trio(a, b, c, d), Least({a, b, c});
            d != -1 && m != -1 ==> Stuck(st, a) && Stuck(st, b) && Stuck(st, c)
    ensures var st, m := Trio(a, b, c, d), Least({a, b, c});
            d == -1 || m == -1 ==> !Stuck(st, b)
  {
    var st, m := Trio(a, b, c, d), Least({a, b, c});
    TrioHears(a, b, c, d);
    assert st[a].view == {a, b, c} && st[b].view == {a, b, c, d};
    hide Heard, Least, Trio, Stuck;
    if d == -1 {
      HearsOne(st, b, m);
    } else if m == -1 {
      HearsOne(st, b, d);
    } else {
      HearsOne(st, a, d);
      HearsTwo(st, b, m, d);
      HearsTwo(st, c, m, d);
    }
  }

  /** Three survivors can stall for ever: a hears one answer but has already dropped that node, the
      others hear two. The exceptions are the ids whose votes count as failures. */
  lemma ThreeSurvivorsStallIff(a: int, b: int, c: int, d: int)
    requires d < a && d < b && d < c && a != b && b != c && a != c
    ensures Stalled(Trio(a, b, c, d)) <==> d != -1 && Least({a, b, c}) != -1
  {
    TrioHears(a, b, c, d);
    TrioStuck(a, b, c, d);
    hide Stalled, Heard, Least, Leaderless, Trio, Stuck;
    StalledIff(Trio(a, b, c, d));
  }

  /** Two leaderless survivors, whatever dead nodes they list, are stalled exactly when each one's
      least id is a failed vote or unknown to the other. */
  lemma TwoSurvivorsStallIff(st: Nodes, a: int, b: int)
    requires st.Keys == {a, b} && a != b && Leaderless(st)
    requires {a, b} <= st[a].view && {a, b} <= st[b].view
    ensures var p, q := Least(st[a].view), Least(st[b].view);
            Stalled(st) <==> (p == -1 || p !in st[b].view) && (q == -1 || q !in st[a].view)
  {
    StalledIff(st);
    assert st[a].view + {a} == st[a].view && st[b].view + {b} == st[b].view;
    PeerHears(st, a, b);
    PeerHears(st, b, a);
    var p, q := Least(st[a].view), Least(st[b].view);
    hide Stalled, Heard, Least, Leaderless;
    assert Stuck(st, a) <==> q == -1 || q !in st[a].view by {
      assert q != -1 ==> Heard(st, a) == {q};
    }
    assert Stuck(st, b) <==> p == -1 || p !in st[b].view by {
      assert p != -1 ==> Heard(st, b) == {p};
    }
  }

  lemma PeerHears(st: Nodes, e: int, w: int)
    requires st.Keys == {e, w} && e != w && w in st[e].view
    ensures Heard(st, e) == {Least(st[w].view + {w})} - {-1}
  {
    hide Least;
  }

  lemma OrderExists(peers: set<int>)
    ensures exists order :: IsOrder(order, peers)
    decreases |peers|
  {
    if peers == {} {
      assert IsOrder([], peers);
    } else {
      SomeMember(peers);
      var w :| w in peers;
      OrderExists(peers - {w});
      var order :| IsOrder(order, peers - {w});
      OrderAppend(order, peers - {w}, w);
      assert peers - {w} + {w} == peers;
    }
  }
}
