/** Leader election (internal/cluster/election/): votes, heartbeats and one round of an elector,
    over the views of the nodes that are alive. */
module Election {
  import opened Bytes
  import opened Collections

  /** What a live node believes: its node map, its recorded leader id and the node that its
      recorded leader address reaches. */
  datatype Node = Node(view: set<int>, leader: int, address: Option<int>)

  /** The live nodes; a message to any other id fails. */
  type Nodes = map<int, Node>

  datatype Sent = Sent(nodes: Nodes, ok: bool)

  /** A heartbeat: the receiver lists the sender, the sender takes over the receiver's map. */
  function Beat(st: Nodes, from: int, to: int): Sent
    requires from in st
  {
    if to !in st then Sent(st, false)
    else
      var st1 := st[to := st[to].(view := st[to].view + {from})];
      Sent(st1[from := st1[from].(view := st1[to].view)], true)
  }

  predicate IsLeast(m: int, s: set<int>) {
    m in s && forall x :: x in s ==> m <= x
  }

  lemma LeastExists(s: set<int>)
    requires s != {}
    ensures exists m :: IsLeast(m, s)
    decreases |s|
  {
    SomeMember(s);
    var x :| x in s;
    var rest := s - {x};
    assert s == rest + {x};
    if rest == {} {
      assert IsLeast(x, s);
    } else {
      LeastExists(rest);
      var m :| IsLeast(m, rest);
      assert IsLeast(if x < m then x else m, s);
    }
  }

  ghost function Least(s: set<int>): (m: int)
    requires s != {}
    ensures IsLeast(m, s)
  {
    LeastExists(s);
    var m :| IsLeast(m, s);
    m
  }

  datatype Voted = Voted(nodes: Nodes, answer: int)

  /** RequestVote: a node with a recorded leader asks it for a sign of life first. A node that is
      its own leader holds the lock its own heartbeat handler needs, so that heartbeat times out;
      its handler runs afterwards and lists the node. */
  ghost function Vote(st: Nodes, w: int): Voted
    requires w in st
  {
    var n := st[w];
    var smallest := Least(n.view + {w});
    if n.leader <= 0 || n.address.None? then Voted(st, smallest)
    else if n.address.value == w then Voted(st[w := n.(view := n.view + {w})], smallest)
    else
      var sent := Beat(st, w, n.address.value);
      Voted(sent.nodes, if sent.ok then n.leader else smallest)
  }

  /** The state after the vote requests, and who answered what. */
  datatype Ballot = Ballot(nodes: Nodes, responses: map<int, int>)

  /** Ask the nodes in the given order; dead nodes and answers of -1 are ignored. */
  ghost function Gather(st: Nodes, order: seq<int>): (b: Ballot)
    ensures b.nodes.Keys == st.Keys
    ensures forall w :: w in b.responses ==> w in order && w in st && b.responses[w] != -1
  {
    if order == [] then Ballot(st, map[])
    else
      var b, w := Gather(st, order[..|order| - 1]), order[|order| - 1];
      if w !in b.nodes then b
      else
        var v := Vote(b.nodes, w);
        Ballot(v.nodes, if v.answer == -1 then b.responses else b.responses[w := v.answer])
  }

  function Answers(responses: map<int, int>): set<int> {
    set w | w in responses :: responses[w]
  }

  datatype Outcome = NoVotes | Disagree | Unconfirmed(candidate: int) | Elected(leader: int)

  datatype Result = Result(nodes: Nodes, outcome: Outcome)

  predicate Unanimous(votes: set<int>, c: int) {
    forall v :: v in votes ==> v == c
  }

  /** After the votes: all answers must be equal, and the candidate must be listed and alive. */
  ghost function Decide(st: Nodes, e: int, votes: set<int>): Result
    requires e in st
  {
    if votes == {} then Result(st, NoVotes)
    else
      var c := Least(votes);
      if !Unanimous(votes, c) then Result(st, Disagree)
      else if c in st[e].view && c in st then
        var st' := Beat(st, e, c).nodes;
        var n := st'[e];
        Result(st'[e := n.(leader := c, address := if c in n.view then Some(c) else None)], Elected(c))
      else Result(st[e := st[e].(view := st[e].view - {c})], Unconfirmed(c))
  }

  /** One round of an elector that asks its peers in the given order. */
  ghost function Round(st: Nodes, e: int, order: seq<int>): Result
    requires e in st
  {
    var b := Gather(st, order);
    Decide(b.nodes, e, Answers(b.responses))
  }

  /** Go ranges over the node map in any order, skipping the elector itself. */
  ghost predicate IsOrder(order: seq<int>, peers: set<int>) {
    && (forall i, j :: 0 <= i < j < |order| ==> order[i] != order[j])
    && (forall w :: w in order <==> w in peers)
  }

  lemma AnswersOfUpdate(m: map<int, int>, w: int, v: int)
    requires w !in m
    ensures Answers(m[w := v]) == Answers(m) + {v}
  {
    var m' := m[w := v];
    forall k | k in m ensures m[k] in Answers(m') {
      assert m'[k] == m[k];
    }
    assert m'[w] == v;
  }

  lemma GatherAppend(st: Nodes, order: seq<int>, w: int)
    ensures var b := Gather(st, order);
            Gather(st, order + [w]) ==
              if w !in b.nodes then b
              else
                var v := Vote(b.nodes, w);
                Ballot(v.nodes, if v.answer == -1 then b.responses else b.responses[w := v.answer])
  {
    assert (order + [w])[..|order|] == order;
    hide Vote;
  }

  lemma OrderAppend(order: seq<int>, peers: set<int>, w: int)
    requires IsOrder(order, peers) && w !in peers
    ensures IsOrder(order + [w], peers + {w})
  {
  }

  lemma NobodyAsked(st: Nodes)
    ensures Gather(st, []) == Ballot(st, map[]) && IsOrder([], {}) && Answers(map[]) == {}
  {
  }

  lemma NotAskedYet(st: Nodes, order: seq<int>, peers: set<int>, w: int)
    requires IsOrder(order, peers) && w !in peers
    ensures w !in Gather(st, order).responses
  {
  }

  /** Asking one more peer. */
  lemma AskMore(st: Nodes, order: seq<int>, peers: set<int>, w: int)
    requires IsOrder(order, peers) && w !in peers
    ensures IsOrder(order + [w], peers + {w})
    ensures var b, more := Gather(st, order), Gather(st, order + [w]);
            if w in b.nodes then
              var v := Vote(b.nodes, w);
              more.nodes == v.nodes &&
              Answers(more.responses) == Answers(b.responses) + if v.answer == -1 then {} else {v.answer}
            else more == b
  {
    hide Vote, Gather, IsOrder, Answers;
    NotAskedYet(st, order, peers, w);
    GatherAppend(st, order, w);
    OrderAppend(order, peers, w);
    var b := Gather(st, order);
    if w in b.nodes {
      AnswersOfUpdate(b.responses, w, Vote(b.nodes, w).answer);
    }
  }

  class Election {
    var nodes: Nodes

    constructor (nodes: Nodes)
      ensures this.nodes == nodes
    {
      this.nodes := nodes;
    }

    /** SendHeartbeat and the receiver's Heartbeat handler as one delivered-or-failed step. */
    method Heartbeat(from: int, to: int) returns (ok: bool)
      requires from in nodes
      modifies this
      ensures Sent(nodes, ok) == Beat(old(nodes), from, to)
    {
      if to !in nodes {
        return false;
      }
      nodes := nodes[to := nodes[to].(view := nodes[to].view + {from})];
      nodes := nodes[from := nodes[from].(view := nodes[to].view)];
      return true;
    }

    method RequestVote(w: int) returns (vote: int)
      requires w in nodes
      modifies this
      ensures Voted(nodes, vote) == Vote(old(nodes), w)
    {
      ghost var before := nodes;
      var n := nodes[w];
      if n.leader > 0 && n.address.Some? {
        if n.address.value == w {
          nodes := nodes[w := n.(view := n.view + {w})];
        } else {
          var ok := Heartbeat(w, n.address.value);
          if ok {
            return n.leader;
          }
        }
      }
      vote := SmallestNode(w, n.view);
    }

    method SmallestNode(w: int, view: set<int>) returns (smallest: int)
      ensures smallest == Least(view + {w})
    {
      smallest := w;
      var rest := view;
      while rest != {}
        invariant rest <= view && IsLeast(smallest, view - rest + {w})
        decreases rest
      {
        SomeMember(rest);
        var n :| n in rest;
        assert view - (rest - {n}) + {w} == view - rest + {w} + {n};
        rest := rest - {n};
        if n < smallest {
          smallest := n;
        }
      }
      assert view - rest + {w} == view + {w};
    }

    /** One round; the retries of the code are further calls. */
    method StartLeaderElection(e: int) returns (outcome: Outcome, ghost order: seq<int>)
      requires e in nodes
      modifies this
      ensures IsOrder(order, old(nodes)[e].view - {e})
      ensures Result(nodes, outcome) == Round(old(nodes), e, order)
    {
      var votes, smallestNode;
      votes, smallestNode, order := RequestVotes(e);
      if votes == {} {
        return NoVotes, order;
      }
      if votes != {smallestNode} {
        return Disagree, order;
      }
      var confirmed := ConfirmLeader(e, smallestNode);
      if !confirmed {
        nodes := nodes[e := nodes[e].(view := nodes[e].view - {smallestNode})];
        return Unconfirmed(smallestNode), order;
      }
      var n := nodes[e];
      var address := if smallestNode in n.view then Some(smallestNode) else None;
      nodes := nodes[e := n.(leader := smallestNode, address := address)];
      return Elected(smallestNode), order;
    }

    method ConfirmLeader(e: int, c: int) returns (ok: bool)
      requires e in nodes
      modifies this
      ensures ok <==> c in old(nodes)[e].view && c in old(nodes)
      ensures nodes == if ok then Beat(old(nodes), e, c).nodes else old(nodes)
    {
      if c !in nodes[e].view {
        return false;
      }
      ok := Heartbeat(e, c);
    }

    /** Ask one peer; -1 stands for a failed request as well as for that answer. */
    method AskOne(w: int) returns (vote: int)
      modifies this
      ensures nodes == if w in old(nodes) then Vote(old(nodes), w).nodes else old(nodes)
      ensures vote == if w in old(nodes) then Vote(old(nodes), w).answer else -1
    {
      if w !in nodes {
        return -1;
      }
      vote := RequestVote(w);
    }

    method RequestVotes(e: int) returns (votes: set<int>, smallestNode: int, ghost order: seq<int>)
      requires e in nodes
      modifies this
      ensures IsOrder(order, old(nodes)[e].view - {e})
      ensures var b := Gather(old(nodes), order); nodes == b.nodes && votes == Answers(b.responses)
      ensures votes != {} ==> smallestNode == Least(votes)
    {
      hide Vote, Least, Gather, IsOrder, Answers;
      votes, smallestNode, order := {}, -1, [];
      NobodyAsked(nodes);
      ghost var peers := nodes[e].view - {e};
      var rest := nodes[e].view - {e};
      assert peers - rest == {};
      while rest != {}
        invariant rest <= peers
        invariant IsOrder(order, peers - rest)
        invariant var b := Gather(old(nodes), order); nodes == b.nodes && votes == Answers(b.responses)
        invariant if votes == {} then smallestNode == -1 else IsLeast(smallestNode, votes) && -1 !in votes
        decreases rest
      {
        SomeMember(rest);
        var w :| w in rest;
        AskMore(old(nodes), order, peers - rest, w);
        assert peers - (rest - {w}) == peers - rest + {w};
        rest := rest - {w};
        order := order + [w];
        var vote := AskOne(w);
        if vote != -1 {
          votes := votes + {vote};
          if smallestNode == -1 || vote < smallestNode {
            smallestNode := vote;
          }
        }
      }
      assert peers - rest == peers;
    }
  }
}
