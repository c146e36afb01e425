/** Leader and followers (internal/cluster/replication/, internal/network/server.go): routing of
    writes, replication to the leader's node list, and the sync of a joining follower. */
module Replication {
  import opened Bytes
  import opened Collections
  import opened Requests
  import opened Persistence
  import opened Store
  import opened Commands

  /** Every node's replica, the leader's id, and the ids in the leader's node map. */
  datatype State = State(leader: int, listed: set<int>, replicas: map<int, Replica>)

  /** The time each node reads while a request is served. */
  type Clock = int -> int

  datatype Routed = Routed(state: State, outcome: Outcome)

  predicate ValidState(c: State) {
    c.leader in c.replicas && c.listed <= c.replicas.Keys
  }

  /** ReplicateRequest on one node. */
  function ApplyCommand(s: Replica, cmd: Command, now: int): Replica {
    Handle(s, ConvertCommandToRequest(cmd), now).replica
  }

  /** ReplicateToFollowers: one delivery to each listed node that can be reached. */
  function Replicate(c: State, cmd: Command, reachable: set<int>, clock: Clock): (d: State)
    requires ValidState(c)
    ensures d.leader == c.leader && d.replicas.Keys == c.replicas.Keys
  {
    c.(replicas := map n | n in c.replicas ::
      if n in c.listed && n in reachable then ApplyCommand(c.replicas[n], cmd, clock(n)) else c.replicas[n])
  }

  /** HandleCommand on one node of the cluster. */
  function HandleAt(c: State, n: int, r: Request, now: int): Routed
    requires n in c.replicas
  {
    var step := Handle(c.replicas[n], r, now);
    Routed(c.(replicas := c.replicas[n := step.replica]), step.outcome)
  }

  /** An answer on its way back through a follower: a number is no string and gets lost, and every
      error becomes the same one. */
  function Carried(out: Outcome): (o: Outcome)
    ensures o.Success? == out.Success? && o.Panic? == out.Panic?
  {
    match out
    case Success(Number(_)) => Success(Done)
    case Failure(_) => Failure(ForwardFailed)
    case _ => out
  }

  /** ForwardRequest on the leader: execute, and replicate after success. */
  function Forward(c: State, cmd: Command, reachable: set<int>, clock: Clock): (d: Routed)
    requires ValidState(c)
    ensures d.state.leader == c.leader && d.state.replicas.Keys == c.replicas.Keys
  {
    var done := HandleAt(c, c.leader, ConvertCommandToRequest(cmd), clock(c.leader));
    Routed(if done.outcome.Success? then Replicate(done.state, cmd, reachable, clock) else done.state,
           Carried(done.outcome))
  }

  /** HandleConnection: a follower forwards exact write words, everything else runs locally, and
      the leader replicates a successful write. */
  function Route(c: State, n: int, r: Request, reachable: set<int>, clock: Clock): (d: Routed)
    requires ValidState(c) && n in c.replicas
    ensures d.state.leader == c.leader && d.state.replicas.Keys == c.replicas.Keys
  {
    var cmd := ConvertRequestToCommand(r);
    if n != c.leader && cmd.None? then Routed(c, Panic)
    else if n != c.leader && IsWriteCommand(cmd.value.command) then Forward(c, cmd.value, reachable, clock)
    else
      var done := HandleAt(c, n, r, clock(n));
      if done.outcome.Success? && n == c.leader && IsWriteCommand(cmd.value.command)
      then done.(state := Replicate(done.state, cmd.value, reachable, clock))
      else done
  }

  /** The request a syncing follower makes of a command: value and offset are always sent. */
  function SyncRequestOf(cmd: Command): Request {
    Request(Some(cmd.command), Some(cmd.key), Some(cmd.value), Some(cmd.offset), None, None)
  }

  function CommandOf(e: Entry): Command {
    Command(e.command, e.key, OrEmpty(e.value), 0, OrEmpty(e.offset))
  }

  /** A follower handling the synced commands in order. */
  function SyncAll(s: Replica, es: seq<Entry>, now: int): Replica {
    if es == [] then s
    else Handle(SyncAll(s, es[..|es| - 1], now), SyncRequestOf(CommandOf(es[|es| - 1])), now).replica
  }

  class Cluster {
    const leader: int
    var listed: set<int>
    var replicas: map<int, Replica>

    ghost function View(): State
      reads this
    {
      State(leader, listed, replicas)
    }

    constructor (leader: int, followers: set<int>)
      ensures ValidState(View()) && this.leader == leader && listed == followers
      ensures replicas == map n | n in followers + {leader} :: Replica(EMPTY, [])
    {
      this.leader, this.listed := leader, followers;
      this.replicas := map n | n in followers + {leader} :: Replica(EMPTY, []);
    }

    method Execute(n: int, r: Request, now: int) returns (out: Outcome)
      requires n in replicas
      modifies this`replicas
      ensures Routed(View(), out) == HandleAt(old(View()), n, r, now)
    {
      var step := Handle(replicas[n], r, now);
      replicas := replicas[n := step.replica];
      out := step.outcome;
    }

    /** The node map is ranged over in an arbitrary order; unreachable nodes are skipped. */
    method ReplicateToFollowers(cmd: Command, reachable: set<int>, clock: Clock)
      requires ValidState(View())
      modifies this`replicas
      ensures View() == Replicate(old(View()), cmd, reachable, clock)
    {
      var rest: set<int> := listed;
      while rest != {}
        invariant rest <= listed <= replicas.Keys && replicas.Keys == old(replicas).Keys
        invariant forall n :: n in replicas ==>
          replicas[n] == if n in listed - rest && n in reachable then ApplyCommand(old(replicas)[n], cmd, clock(n))
                         else old(replicas)[n]
        decreases rest
      {
        SomeMember(rest);
        var n :| n in rest;
        rest := rest - {n};
        if n in reachable {
          var _ := Execute(n, ConvertCommandToRequest(cmd), clock(n));
        }
      }
      ghost var after := Replicate(old(View()), cmd, reachable, clock).replicas;
      assert replicas.Keys == after.Keys;
      assert forall n :: n in replicas ==> replicas[n] == after[n];
    }

    method ForwardRequest(cmd: Command, reachable: set<int>, clock: Clock) returns (out: Outcome)
      requires ValidState(View())
      modifies this`replicas
      ensures Routed(View(), out) == Forward(old(View()), cmd, reachable, clock)
    {
      out := Execute(leader, ConvertCommandToRequest(cmd), clock(leader));
      if out.Success? {
        ReplicateToFollowers(cmd, reachable, clock);
      }
      out := Carried(out);
    }

    method HandleConnection(n: int, r: Request, reachable: set<int>, clock: Clock) returns (out: Outcome)
      requires ValidState(View()) && n in replicas
      modifies this`replicas
      ensures Routed(View(), out) == Route(old(View()), n, r, reachable, clock)
    {
      var cmd := ConvertRequestToCommand(r);
      if n != leader {
        if cmd.None? {
          return Panic;
        }
        if IsWriteCommand(cmd.value.command) {
          out := ForwardRequest(cmd.value, reachable, clock);
          return;
        }
      }
      out := Execute(n, r, clock(n));
      if out.Success? && n == leader && IsWriteCommand(cmd.value.command) {
        ReplicateToFollowers(cmd.value, reachable, clock);
      }
    }

    /** A follower that starts fetches the leader's loaded log and handles it command by command. */
    method SyncRequest(n: int, now: int)
      requires leader in replicas && n in replicas && n != leader
      modifies this`replicas
      ensures View() == old(View()).(replicas :=
                old(replicas)[n := SyncAll(old(replicas)[n], Load(old(replicas)[leader].log), now)])
    {
      hide Handle, Load;
      var entries := Load(replicas[leader].log);
      for i := 0 to |entries|
        invariant n in old(replicas) && entries == Load(old(replicas)[leader].log)
        invariant replicas == old(replicas)[n := SyncAll(old(replicas)[n], entries[..i], now)]
      {
        var command := ConvertRequestToCommand(RequestOf(entries[i]));
        var _ := Execute(n, SyncRequestOf(command.value), now);
        assert entries[..i + 1][..i] == entries[..i];
      }
      assert entries[..|entries|] == entries;
    }
  }
}
