/** The transport a fetch talks through, as an adversary, with its recorded trace; and the two concrete
    transports, each shown to behave like one such adversary. */
module Transport {
  import opened Json
  import opened Urls

  /** Who cancelled an await: the fetch's own deadline, or somebody cancelling the whole request. */
  datatype Canceller = Deadline | Outside

  /** How one await ends. `Raised` is any ordinary exception of the transport's own. */
  datatype Await<+T> = Done(value: T) | Raised | Cancelled(who: Canceller)

  /** One peer's whole behaviour: the n-th send and the n-th receive may end in any way, and a receive
      may yield any JSON value. Since the client is deterministic, quantifying over all such tables
      covers every peer, however it reacts to what it is sent. */
  datatype Peer = Peer(enter: Await<()>, send: nat -> Await<()>, recv: nat -> Await<Value>, exit: Await<()>)

  datatype Message = Auth(accessToken: string) | Command(id: nat, kind: string)

  /** What happened, in order. A failed or cancelled operation is recorded like any other. */
  datatype Op =
    | Enter(entered: Await<()>)
    | Send(message: Message, sent: Await<()>)
    | Recv(received: Await<Value>)
    | Exit(exited: Await<()>)
    | Parse

  class Channel {
    const peer: Peer
    var log: seq<Op>
    var sends: nat
    var recvs: nat

    constructor (peer: Peer)
      ensures this.peer == peer && log == [] && sends == 0 && recvs == 0
    {
      this.peer := peer;
      log, sends, recvs := [], 0, 0;
    }

    method DoEnter() returns (r: Await<()>)
      modifies this
      ensures r == peer.enter && log == old(log) + [Enter(r)]
      ensures sends == old(sends) && recvs == old(recvs)
    {
      r := peer.enter;
      log := log + [Enter(r)];
    }

    method DoSend(message: Message) returns (r: Await<()>)
      modifies this
      ensures r == peer.send(old(sends)) && log == old(log) + [Send(message, r)]
      ensures sends == old(sends) + 1 && recvs == old(recvs)
    {
      r := peer.send(sends);
      log := log + [Send(message, r)];
      sends := sends + 1;
    }

    method DoRecv() returns (r: Await<Value>)
      modifies this
      ensures r == peer.recv(old(recvs)) && log == old(log) + [Recv(r)]
      ensures sends == old(sends) && recvs == old(recvs) + 1
    {
      r := peer.recv(recvs);
      log := log + [Recv(r)];
      recvs := recvs + 1;
    }

    method DoExit() returns (r: Await<()>)
      modifies this
      ensures r == peer.exit && log == old(log) + [Exit(r)]
      ensures sends == old(sends) && recvs == old(recvs)
    {
      r := peer.exit;
      log := log + [Exit(r)];
    }

    method NoteParse()
      modifies this
      ensures log == old(log) + [Parse]
      ensures sends == old(sends) && recvs == old(recvs)
    {
      log := log + [Parse];
    }
  }

  /** What calling the transport factory gives: a transport, or an ordinary exception. */
  datatype Built = Connected(peer: Peer) | NotBuilt

  type Factory = string -> Built

  // ---------------------------------------------------------------- the scripted fake

  /** A fake's script as a peer: an exhausted script raises, nothing else ever fails. */
  function FakePeer(script: seq<Value>): Peer {
    Peer(Done(()), _ => Done(()), (n: nat) => if n < |script| then Done(script[n]) else Raised, Done(()))
  }

  class FakeHATransport {
    const script: seq<Value>
    var position: nat
    var sent: seq<Message>

    ghost predicate Valid()
      reads this
    {
      position <= |script|
    }

    constructor (script: seq<Value>)
      ensures Valid() && this.script == script && position == 0 && sent == []
    {
      this.script := script;
      position, sent := 0, [];
    }

    method Send(message: Message) returns (r: Await<()>)
      requires Valid()
      modifies this
      ensures Valid() && position == old(position) && sent == old(sent) + [message]
      ensures r == FakePeer(script).send(|old(sent)|) == Done(())
    {
      sent := sent + [message];
      r := Done(());
    }

    /** Receives the script in order, as the peer of the same script does, and raises ever after. */
    method Recv() returns (r: Await<Value>)
      requires Valid()
      modifies this
      ensures Valid() && sent == old(sent)
      ensures r == FakePeer(script).recv(old(position))
      ensures r == if old(position) < |script| then Done(script[old(position)]) else Raised
      ensures position == if r.Done? then old(position) + 1 else |script|
    {
      if position == |script| {
        return Raised;
      }
      r := Done(script[position]);
      position := position + 1;
    }
  }

  // ---------------------------------------------------------------- the websocket transport

  /** One received text frame: not JSON at all, or a JSON value. */
  datatype Frame = Garbage | Decoded(value: Value)

  datatype Socket = Socket(connect: Await<()>, send: nat -> Await<()>, recv: nat -> Await<Frame>, close: Await<()>)

  /** Only JSON objects come out of this transport. */
  function Unframe(a: Await<Frame>): Await<Value> {
    match a
    case Raised => Raised
    case Cancelled(who) => Cancelled(who)
    case Done(frame) => if frame.Decoded? && frame.value.Obj? then Done(frame.value) else Raised
  }

  function SocketPeer(s: Socket): Peer {
    Peer(s.connect, s.send, (n: nat) => Unframe(s.recv(n)), s.close)
  }

  /** A frame that is a JSON object comes out as it is, any other frame raises, and whatever else a socket
      does shows unchanged. */
  lemma SocketPeerExactly(s: Socket, n: nat, v: Value)
    ensures SocketPeer(s).recv(n) == Done(v) <==> v.Obj? && s.recv(n) == Done(Decoded(v))
    ensures forall who :: SocketPeer(s).recv(n) == Cancelled(who) <==> s.recv(n) == Cancelled(who)
    ensures SocketPeer(s).enter == s.connect && SocketPeer(s).exit == s.close && SocketPeer(s).send(n) == s.send(n)
  {
    assert SocketPeer(s).recv(n) == Unframe(s.recv(n));
  }

  /** Building the production transport computes the URL, which may itself raise. */
  function BuildWebsocket(host: string, splitter: Splitter, network: string -> Socket): Built {
    match WebsocketUrl(host, splitter)
    case ValueError(_) => NotBuilt
    case Ok(url) => Connected(SocketPeer(network(url)))
  }

  function WebsocketFactory(splitter: Splitter, network: string -> Socket): Factory {
    host => BuildWebsocket(host, splitter, network)
  }

  class WebSocketsHATransport {
    const socket: Socket
    var connected: bool
    var sends: nat
    var recvs: nat
    var closes: nat

    constructor (socket: Socket)
      ensures this.socket == socket && !connected && sends == 0 && recvs == 0 && closes == 0
    {
      this.socket := socket;
      connected, sends, recvs, closes := false, 0, 0, 0;
    }

    method AEnter() returns (r: Await<()>)
      modifies this`connected
      ensures r == SocketPeer(socket).enter == socket.connect
      ensures connected == (old(connected) || r.Done?)
    {
      r := socket.connect;
      if r.Done? {
        connected := true;
      }
    }

    /** Closing an unconnected transport touches no socket and cannot fail. */
    method AExit() returns (r: Await<()>)
      modifies this`closes
      ensures connected ==> r == SocketPeer(socket).exit == socket.close && closes == old(closes) + 1
      ensures !connected ==> r == Done(()) && closes == old(closes)
    {
      if connected {
        r := socket.close;
        closes := closes + 1;
      } else {
        r := Done(());
      }
    }

    /** Sending or receiving before connecting is an assertion error, and touches no socket. */
    method Send(message: Message) returns (r: Await<()>)
      modifies this`sends
      ensures connected ==> r == SocketPeer(socket).send(old(sends)) == socket.send(old(sends))
      ensures connected ==> sends == old(sends) + 1
      ensures !connected ==> r == Raised && sends == old(sends)
    {
      if !connected {
        return Raised;
      }
      r := socket.send(sends);
      sends := sends + 1;
    }

    method Recv() returns (r: Await<Value>)
      modifies this`recvs
      ensures connected ==> r == SocketPeer(socket).recv(old(recvs)) && recvs == old(recvs) + 1
      ensures !connected ==> r == Raised && recvs == old(recvs)
      ensures connected ==> forall v :: r == Done(v) <==> v.Obj? && socket.recv(old(recvs)) == Done(Decoded(v))
      ensures connected ==> forall who :: r == Cancelled(who) <==> socket.recv(old(recvs)) == Cancelled(who)
    {
      if !connected {
        return Raised;
      }
      var raw := socket.recv(recvs);
      recvs := recvs + 1;
      match raw
      case Raised => r := Raised;
      case Cancelled(who) => r := Cancelled(who);
      case Done(frame) =>
        if frame.Garbage? || !frame.value.Obj? {
          r := Raised;
        } else {
          r := Done(frame.value);
        }
    }
  }
}
