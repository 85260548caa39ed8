/** The session task: its state, updated in place, and its loop. */
module Session {
  import opened Bytes
  import opened Protocol
  import opened Control
  import opened Sequence
  import opened Links
  import opened Views

  /** Lists a map's keys in whatever order it keeps them. */
  method ListKeys(keys: set<I32>) returns (order: seq<I32>)
    ensures IsOrder(order, keys)
  {
    order := [];
    var left := keys;
    while left != {}
      invariant left <= keys
      invariant forall x :: x in order <==> x in keys - left
      invariant Distinct(order)
      decreases |left|
    {
      var key :| key in left;
      order := order + [key];
      left := left - {key};
    }
  }

  class State {
    const isHost: bool
    var links: map<I32, Link>
    var announced: set<I32>
    var connections: map<I32, nat>
    var events: seq<Event>

    ghost function Now(): View
      reads this
    {
      Views.View(isHost, links, announced, connections, events)
    }

    constructor (isHost: bool)
      ensures Now() == Views.View(isHost, map[], {}, map[], [])
    {
      this.isHost := isHost;
      links, announced, connections, events := map[], {}, map[], [];
    }

    method AddLink(peer: I32, conn: nat)
      modifies this
      ensures Now() == Views.AddLink(old(Now()), peer, conn)
    {
      connections := connections[peer := conn];
      links := links[peer := NewLink(conn)];
    }

    method Announce(peer: I32)
      modifies this
      ensures Now() == Views.Announce(old(Now()), peer)
    {
      if peer !in announced {
        announced := announced + {peer};
        events := events + [PeerConnected(peer)];
      }
    }

    method Forget(peer: I32)
      modifies this
      ensures Now() == Views.Forget(old(Now()), peer)
    {
      if peer in announced {
        announced := announced - {peer};
        events := events + [PeerDisconnected(peer)];
      }
    }

    /** One more frame for the channel's writer, which exists from its first frame on. */
    method WriteReliable(peer: I32, channel: I32, data: Bytes)
      modifies this`links
      ensures peer !in old(links) ==> links == old(links)
      ensures peer in old(links) ==> links == old(links)[peer := Queue(old(links)[peer], channel, data)]
    {
      if peer !in links {
        return;
      }
      var link := links[peer];
      var queued := if channel in link.reliable then link.reliable[channel] else [];
      links := links[peer := link.(reliable := link.reliable[channel := queued + [data]])];
    }

    /** Numbers and sends a datagram, or falls back to the stream when it is over the limit. */
    method WriteDatagram(peer: I32, channel: I32, mode: Mode, data: Bytes, limit: nat)
      requires mode != Reliable
      modifies this
      ensures Now() == Views.SendOne(old(Now()), peer, Op(channel, mode, data, limit))
    {
      if peer !in links {
        return;
      }
      var link := links[peer];
      var sequence := 0;
      if mode == UnreliableOrdered {
        var counter := if channel in link.sequences then link.sequences[channel] else 0;
        counter := Bump(counter);
        link := link.(sequences := link.sequences[channel := counter]);
        sequence := counter;
      }
      var framed := PutI32(channel) + PutU32(sequence) + data;
      if |framed| > limit {
        if channel !in link.warned {
          link := link.(warned := link.warned + {channel});
          var room := if limit < DATAGRAM_HEADER then 0 else limit - DATAGRAM_HEADER;
          events := events + [Warning(|data|, room, channel)];
        }
        links := links[peer := link];
        assert links[peer].warned == old(links)[peer].warned + {channel};
        WriteReliable(peer, channel, data);
        return;
      }
      links := links[peer := link.(datagrams := link.datagrams + [framed])];
    }

    method SendOne(peer: I32, channel: I32, mode: Mode, data: Bytes, limit: nat)
      modifies this
      ensures Now() == Views.SendOne(old(Now()), peer, Op(channel, mode, data, limit))
    {
      match mode
      case Reliable => WriteReliable(peer, channel, data);
      case Unreliable => WriteDatagram(peer, channel, mode, data, limit);
      case UnreliableOrdered => WriteDatagram(peer, channel, mode, data, limit);
    }

    method ControlTo(peer: I32, c: Control)
      modifies this
      ensures Now() == Views.SendOne(old(Now()), peer, ControlOp(c))
    {
      var frame := EncodeToBuffer(c);
      WriteReliable(peer, CONTROL_CHANNEL, frame);
    }

    method Send(target: I32, channel: I32, mode: Mode, data: Bytes, limits: map<I32, nat>)
      returns (ghost order: seq<I32>)
      modifies this
      ensures IsOrder(order, Route(old(links).Keys, target))
      ensures Now() == SendEach(old(Now()), order, channel, mode, data, limits)
    {
      if target <= 0 {
        var excluded := Negate(target);
        var peers := ListKeys(links.Keys - {excluded});
        order := peers;
        for i := 0 to |peers|
          invariant Now() == SendEach(old(Now()), peers[..i], channel, mode, data, limits)
        {
          assert peers[..i + 1][..i] == peers[..i];
          SendOne(peers[i], channel, mode, data, LimitOf(limits, peers[i]));
        }
        assert peers[..|peers|] == peers;
        return;
      }

      var peer := if target in links then target else HOST_ID;
      order := if peer in links then [peer] else [];
      SendOne(peer, channel, mode, data, LimitOf(limits, peer));
      assert order != [] ==> order[..0] == [];
    }

    /** The newcomer gets the list of those it finds; each of them hears of it. */
    method Welcome(peer: I32, conn: nat) returns (ghost order: seq<I32>)
      modifies this
      ensures IsOrder(order, old(links).Keys)
      ensures Now() == Greet(old(Now()), peer, conn, order)
    {
      var existing := ListKeys(links.Keys);
      order := existing;
      AddLink(peer, conn);
      ControlTo(peer, Control.Welcome(peer, existing));
      ghost var greeted := Now();
      for i := 0 to |existing|
        invariant Now() == Tell(greeted, existing[..i], PeerJoined(peer))
      {
        assert existing[..i + 1][..i] == existing[..i];
        ControlTo(existing[i], PeerJoined(peer));
      }
      assert existing[..|existing|] == existing;
      Announce(peer);
    }

    /** What a membership message does; nothing here asks whether this is a client. */
    method Apply(c: Control)
      modifies this
      ensures Now() == Views.Apply(old(Now()), c)
    {
      match c
      case Welcome(yourId, peers) =>
        events := events + [Ready(yourId)];
        Announce(HOST_ID);
        ghost var ready := Now();
        for i := 0 to |peers|
          invariant Now() == AnnounceAll(ready, peers[..i])
        {
          assert peers[..i + 1][..i] == peers[..i];
          Announce(peers[i]);
        }
        assert peers[..|peers|] == peers;
      case PeerJoined(id) => Announce(id);
      case PeerLeft(id) => Forget(id);
    }

    method Lost(peer: I32) returns (ghost order: seq<I32>)
      modifies this
      ensures IsOrder(order, old(links).Keys - {peer})
      ensures Now() == Lose(old(Now()), peer, order)
    {
      var others := ListKeys(links.Keys - {peer});
      order := others;
      if peer !in links {
        return;
      }
      links := links - {peer};
      connections := connections - {peer};
      Forget(peer);
      if isHost {
        ghost var gone := Now();
        for i := 0 to |others|
          invariant Now() == Tell(gone, others[..i], PeerLeft(peer))
        {
          assert others[..i + 1][..i] == others[..i];
          ControlTo(others[i], PeerLeft(peer));
        }
        assert others[..|others|] == others;
      } else if peer == HOST_ID {
        events := events + [Closed("host disconnected")];
      }
    }
  }

  /**
    The task from the moment it has its first link or is listening, fed what its select yields.
    It stops at the first Close, or when nothing more can come, and reports that it closed.
    Disconnecting a peer only closes its connection; the peer goes when that is noticed.
   */
  method Run(state: State, inputs: seq<Input>) returns (ghost trace: seq<Task>, ghost orders: seq<seq<I32>>)
    modifies state
    ensures Turns(trace, inputs, orders)
    ensures trace[0] == Task(old(state.Now()), FIRST_CLIENT_ID)
    ensures |orders| == |inputs| || inputs[|orders|].Close?
    ensures var last := trace[|orders|].view;
            state.Now() == last.(links := map[], events := last.events + [Closed("session closed")])
  {
    var nextId := FIRST_CLIENT_ID;
    trace, orders := [Task(state.Now(), nextId)], [];
    var i := 0;
    while i < |inputs| && !inputs[i].Close?
      invariant i == |orders| <= |inputs|
      invariant Turns(trace, inputs, orders)
      invariant trace[0] == Task(old(state.Now()), FIRST_CLIENT_ID)
      invariant trace[i] == Task(state.Now(), nextId)
    {
      ghost var order: seq<I32> := [];
      match inputs[i] {
        case Packet(target, channel, mode, data, limits) =>
          order := state.Send(target, channel, mode, data, limits);
        case Message(control) => state.Apply(control);
        case Gone(peer) => order := state.Lost(peer);
        case Accepted(conn) =>
          var peer := nextId;
          nextId := NextId(nextId);
          order := state.Welcome(peer, conn);
        case Disconnect(_) =>
      }
      trace, orders := trace + [Task(state.Now(), nextId)], orders + [order];
      i := i + 1;
    }
    state.links := map[];
    state.events := state.events + [Closed("session closed")];
  }
}
