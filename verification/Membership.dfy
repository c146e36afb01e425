/** The member list of a bootstrap leader over time: heartbeats add and refresh nodes, cleanup
    sweeps remove silent ones (internal/cluster/election/election_server.go,
    internal/cluster/server.go). */
module Membership {
  import opened Bytes
  import opened Collections

  /** Milliseconds without a heartbeat after which a sweep removes a node. */
  const TIMEOUT: int := 15_000

  /** The heartbeat table of the election server and the node map of the cluster server. */
  datatype Members = Members(heartbeats: map<int, int>, nodes: map<int, Bytes>)

  const NOBODY: Members := Members(map[], map[])

  function Beat(m: Members, id: int, addr: Bytes, now: int): Members {
    Members(m.heartbeats[id := now], m.nodes[id := addr])
  }

  function Overdue(m: Members, now: int): set<int> {
    set id | id in m.heartbeats && now - m.heartbeats[id] > TIMEOUT
  }

  function CleanUp(m: Members, now: int): Members {
    Members(m.heartbeats - Overdue(m, now), m.nodes - Overdue(m, now))
  }

  class Leader {
    var heartbeats: map<int, int>
    var nodes: map<int, Bytes>

    ghost function View(): Members
      reads this
    {
      Members(heartbeats, nodes)
    }

    constructor ()
      ensures View() == NOBODY
    {
      heartbeats, nodes := map[], map[];
    }

    method Heartbeat(id: int, addr: Bytes, now: int) returns (view: map<int, Bytes>)
      modifies this
      ensures View() == Beat(old(View()), id, addr, now) && view == nodes
    {
      heartbeats := heartbeats[id := now];
      nodes := nodes[id := addr];
      view := nodes;
    }

    method CleanupInactiveNodes(now: int)
      modifies this
      ensures View() == CleanUp(old(View()), now)
    {
      var rest := heartbeats.Keys;
      ghost var gone: set<int> := {};
      while rest != {}
        invariant rest <= old(heartbeats).Keys
        invariant gone == set id | id in old(heartbeats) && id !in rest && now - old(heartbeats)[id] > TIMEOUT
        invariant heartbeats == old(heartbeats) - gone && nodes == old(nodes) - gone
        decreases rest
      {
        SomeMember(rest);
        var id :| id in rest;
        rest := rest - {id};
        if now - heartbeats[id] > TIMEOUT {
          heartbeats := heartbeats - {id};
          nodes := nodes - {id};
          gone := gone + {id};
        }
      }
    }
  }

  // ------------------------------------------------------------------ whole runs

  datatype Event = Beats(id: int, addr: Bytes, at: int) | Sweeps(at: int)

  function After(m: Members, ev: Event): Members {
    match ev
    case Beats(id, addr, at) => Beat(m, id, addr, at)
    case Sweeps(at) => CleanUp(m, at)
  }

  function Run(evs: seq<Event>): Members {
    if evs == [] then NOBODY else After(Run(evs[..|evs| - 1]), evs[|evs| - 1])
  }

  predicate InOrder(evs: seq<Event>) {
    forall i, j :: 0 <= i < j < |evs| ==> evs[i].at <= evs[j].at
  }

  predicate IsBeat(ev: Event, id: int) {
    ev.Beats? && ev.id == id
  }

  /** The heartbeat table and the node map never disagree on who is a member. */
  lemma {:induction false} SameDomain(evs: seq<Event>)
    ensures Run(evs).heartbeats.Keys == Run(evs).nodes.Keys
  {
    if evs != [] {
      SameDomain(evs[..|evs| - 1]);
    }
  }

  /** Event j is id's latest heartbeat, and every later sweep came within the timeout of it. */
  predicate LatestHeard(evs: seq<Event>, id: int, j: int) {
    && 0 <= j < |evs| && IsBeat(evs[j], id)
    && (forall k :: j < k < |evs| ==> !IsBeat(evs[k], id))
    && (forall k :: j < k < |evs| && evs[k].Sweeps? ==> evs[k].at - evs[j].at <= 15_000)
  }

  lemma LatestHeardStep(evs: seq<Event>, id: int, j: int)
    requires evs != []
    ensures var n := |evs| - 1;
            var kept := LatestHeard(evs[..n], id, j) && (evs[n].Sweeps? ==> evs[n].at - evs[j].at <= 15_000);
            LatestHeard(evs, id, j) <==> if IsBeat(evs[n], id) then j == n else kept
  {
    var n := |evs| - 1;
    if 0 <= j < n {
      if LatestHeard(evs[..n], id, j) {
        assert evs[..n][j] == evs[j];
        assert forall k :: j < k < n ==> evs[..n][k] == evs[k];
      }
      if LatestHeard(evs, id, j) {
        assert forall k :: j < k < n ==> evs[..n][k] == evs[k];
      }
    }
  }

  /** Who is listed, in terms of the run alone: exactly the nodes that every sweep since their
      latest heartbeat heard within 15 seconds; the table holds that heartbeat's time and the node map its
      address. */
  lemma {:induction false} ListedIff(evs: seq<Event>, id: int)
    ensures id in Run(evs).heartbeats <==> exists j :: LatestHeard(evs, id, j)
    ensures forall j :: LatestHeard(evs, id, j) ==>
      0 <= j < |evs| && evs[j].Beats? && id in Run(evs).heartbeats && Run(evs).heartbeats[id] == evs[j].at &&
      id in Run(evs).nodes && Run(evs).nodes[id] == evs[j].addr
  {
    if evs != [] {
      var before, ev := evs[..|evs| - 1], evs[|evs| - 1];
      ListedIff(before, id);
      hide LatestHeard;
      forall j | LatestHeard(evs, id, j)
        ensures 0 <= j < |evs| && evs[j].Beats? && id in Run(evs).heartbeats && Run(evs).heartbeats[id] == evs[j].at
        ensures id in Run(evs).nodes && Run(evs).nodes[id] == evs[j].addr
      {
        LatestHeardStep(evs, id, j);
      }
      if id in Run(evs).heartbeats {
        LatestHeardStep(evs, id, |before|);
        if !IsBeat(ev, id) {
          var j :| LatestHeard(before, id, j);
          LatestHeardStep(evs, id, j);
        }
      }
    }
  }

  /** Some heartbeat of id before event k, from event `first` on, is within the timeout of it. */
  predicate HeardRecently(evs: seq<Event>, id: int, first: nat, k: nat)
    requires k < |evs|
  {
    exists j :: first <= j < k && IsBeat(evs[j], id) && evs[k].at - evs[j].at <= 15_000
  }

  /** A node whose heartbeats keep every sweep within 15 seconds of one is never removed. */
  lemma NeverRemoved(evs: seq<Event>, id: int, first: nat)
    requires InOrder(evs) && first < |evs| && IsBeat(evs[first], id)
    requires forall k :: first < k < |evs| && evs[k].Sweeps? ==> HeardRecently(evs, id, first, k)
    ensures id in Run(evs).heartbeats && id in Run(evs).nodes
  {
    var j := LatestBeat(evs, id, first);
    forall k | j < k < |evs| && evs[k].Sweeps? ensures evs[k].at - evs[j].at <= 15_000 {
      assert HeardRecently(evs, id, first, k);
      var i :| first <= i < k && IsBeat(evs[i], id) && evs[k].at - evs[i].at <= 15_000;
      assert i == j || i < j;
    }
    hide Run, InOrder, IsBeat, HeardRecently;
    assert LatestHeard(evs, id, j);
    ListedIff(evs, id);
    SameDomain(evs);
  }

  lemma LatestBeat(evs: seq<Event>, id: int, first: nat) returns (j: nat)
    requires first < |evs| && IsBeat(evs[first], id)
    ensures first <= j < |evs| && IsBeat(evs[j], id)
    ensures forall k :: j < k < |evs| ==> !IsBeat(evs[k], id)
  {
    j := first;
    for i := first + 1 to |evs|
      invariant first <= j < i && IsBeat(evs[j], id)
      invariant forall k :: j < k < i ==> !IsBeat(evs[k], id)
    {
      if IsBeat(evs[i], id) {
        j := i;
      }
    }
  }

  /** If the last sweeps are at most `gap` apart, no listed node has been silent for longer than
      15 seconds plus the gap. */
  lemma StalenessBound(evs: seq<Event>, now: int, gap: int, id: int, s: nat)
    requires InOrder(evs) && s < |evs| && evs[s].Sweeps? && now - evs[s].at <= gap
    requires id in Run(evs).nodes
    ensures id in Run(evs).heartbeats && now - Run(evs).heartbeats[id] <= 15_000 + gap
  {
    SameDomain(evs);
    ListedIff(evs, id);
    var j :| LatestHeard(evs, id, j);
    if s < j {
      assert evs[s].at <= evs[j].at;
    }
  }
}
