/**
 applications/sample_ipc_server and sample_ipc_client: each accepted connection
 carries one request and its prefixed reply.
*/
module SampleIpc {
  import opened Basics
  import opened Framing
  import opened Seqs
  import opened UnixSocketConnection

  /** "sample_ipc_server:" in ASCII. */
  const PREFIX: Bytes := [115, 97, 109, 112, 108, 101, 95, 105, 112, 99, 95, 115, 101, 114, 118, 101, 114, 58]
  /** ASCII, for the printable characters. */
  function Ascii(s: string): Bytes
    requires forall i :: 0 <= i < |s| ==> ' ' <= s[i] <= '~'
  {
    seq(|s|, i requires 0 <= i < |s| => s[i] as int)
  }

  /** The prefix in characters. */
  lemma PrefixText()
    ensures PREFIX == Ascii("sample_ipc_server:") && |PREFIX| == 18
  {}

  /** Both sides' limit on a received message. */
  const LIMIT: nat := 64 * 1024
  /** Timeout of the server's transfers in milliseconds. */
  const TRANSFER_TIMEOUT: int := 500

  function Reply(request: Bytes): (r: Bytes)
    ensures |r| == |request| + 18
  {
    PREFIX + request
  }

  /**
   What the server has put on a connection: nothing, or a prefix of the framed
   reply to the one request it took off it.
  */
  ghost predicate Served(consumed: Bytes, replied: Bytes, request: Option<Message>) {
    if request.None? then replied == []
    else |request.value| <= LIMIT && consumed == Frame(request.value) && replied <= Frame(Reply(request.value))
  }

  /** What a call that extends `before` by a prefix of f has added. */
  lemma Added(before: Bytes, f: Bytes, after: Bytes)
    requires before <= after <= before + f
    ensures after[|before|..] <= f
    ensures after[|before|..] == f <==> after == before + f
  {
    assert after == before + after[|before|..];
  }

  /**
   The body of the listener loop for one accepted connection. Without
   disturbances the whole reply is sent exactly for a complete request within
   the limit.
  */
  method ServeOne(s: StreamSocket) returns (ok: bool, ghost request: Option<Message>)
    requires s.Valid()
    modifies s
    ensures s.Valid() && !s.open && s.inbox == old(s.inbox) && old(s.sent) <= s.sent && old(s.taken) <= s.taken
    ensures Served(s.inbox[old(s.taken)..s.taken], s.sent[|old(s.sent)|..], request)
    ensures ok <==> request.Some? && s.sent == old(s.sent) + Frame(Reply(request.value))
    ensures old(s.Undisturbed(true)) ==>
              var rest := old(s.inbox[s.taken..]);
              && (ok <==> HasFrame(rest) && |FirstMessage(rest)| <= LIMIT)
              && (ok ==> request == Some(FirstMessage(rest)))
  {
    ghost var before := s.sent;
    var connection := new UnixSocketConnection(s);
    var received, text := connection.ReceiveMessage(LIMIT, Some(TRANSFER_TIMEOUT));
    if !received {
      connection.Close();
      return false, None;
    }
    request := Some(text);
    ok := connection.SendMessage(Reply(text), Some(TRANSFER_TIMEOUT));
    Added(before, Frame(Reply(text)), s.sent);
    connection.Close();
  }

  /** One turn of the listener loop: nothing accepted within the poll, or a client. */
  datatype Turn = Nobody | Client(socket: StreamSocket)

  ghost function Sockets(turns: seq<Turn>): set<StreamSocket> {
    set i | 0 <= i < |turns| && turns[i].Client? :: turns[i].socket
  }

  /**
   The listener loop until its stop token is set, which it is after the given
   turns. Every client is served as by itself.
  */
  method Listen(turns: seq<Turn>)
    requires forall i :: 0 <= i < |turns| && turns[i].Client? ==> turns[i].socket.Valid()
    requires forall i, j :: 0 <= i < j < |turns| && turns[i].Client? && turns[j].Client? ==>
              turns[i].socket != turns[j].socket
    modifies Sockets(turns)
    ensures forall s :: s in Sockets(turns) ==>
              ServedAlone(s, old(s.inbox), old(s.taken), old(s.sent), old(s.Undisturbed(true)))
  {
    var i := 0;
    while i < |turns|
      invariant 0 <= i <= |turns|
      invariant forall j :: i <= j < |turns| && turns[j].Client? ==>
                turns[j].socket.Valid() && unchanged(turns[j].socket)
      invariant forall j :: 0 <= j < i && turns[j].Client? ==>
                  var c := turns[j].socket;
                  ServedAlone(c, old(c.inbox), old(c.taken), old(c.sent), old(c.Undisturbed(true)))
    {
      if turns[i].Client? {
        var c := turns[i].socket;
        ghost var request;
        var ok;
        ok, request := ServeOne(c);
        assert ServedAs(c, old(c.inbox), old(c.taken), old(c.sent), old(c.Undisturbed(true)), request);
      }
      i := i + 1;
    }
  }

  /** What ServeOne promises, of a connection with this history. */
  ghost predicate ServedAs(s: StreamSocket, inbox: Bytes, taken: nat, sent: Bytes, undisturbed: bool,
      request: Option<Message>)
    reads s
  {
    && !s.open && s.inbox == inbox && taken <= s.taken <= |inbox| && sent <= s.sent
    && Served(inbox[taken..s.taken], s.sent[|sent|..], request)
    && (undisturbed ==>
          var rest := inbox[taken..];
          && (request.Some? && s.sent == sent + Frame(Reply(request.value)) <==>
                HasFrame(rest) && |FirstMessage(rest)| <= LIMIT)
          && (HasFrame(rest) && |FirstMessage(rest)| <= LIMIT ==> request == Some(FirstMessage(rest))))
  }

  /** A client was served as if it were the only one. */
  ghost predicate ServedAlone(s: StreamSocket, inbox: Bytes, taken: nat, sent: Bytes, undisturbed: bool)
    reads s
  {
    exists request :: ServedAs(s, inbox, taken, sent, undisturbed, request)
  }

  /** What a client reads off a served connection can only be the prefixed request it sent. */
  lemma ReplyIsPrefixed(request: Message, consumed: Bytes, replied: Bytes, served: Option<Message>, response: Message)
    requires Served(consumed, replied, served) && consumed <= Frame(request) && Frame(response) <= replied
    ensures response == Reply(request)
  {
    PrefixFree(served.value, request);
    PrefixFree(response, Reply(request));
  }

  /**
   A client after the listener loop: whatever response it reads off its
   connection is the prefixed request; and if the listener was not disturbed and
   got the request whole and within its limit, the whole reply is there.
  */
  lemma ClientOfLoop(s: StreamSocket, request: Message, undisturbed: bool)
    requires exists inbox :: inbox <= Frame(request) && ServedAlone(s, inbox, 0, [], undisturbed)
    ensures forall response: Message :: Frame(response) <= s.sent ==> response == Reply(request)
    ensures undisturbed && s.inbox == Frame(request) && |request| <= LIMIT ==> s.sent == Frame(Reply(request))
  {
    var inbox :| inbox <= Frame(request) && ServedAlone(s, inbox, 0, [], undisturbed);
    var served :| ServedAs(s, inbox, 0, [], undisturbed, served);
    assert s.sent[0..] == s.sent && inbox[0..] == inbox;
    forall response: Message | Frame(response) <= s.sent
      ensures response == Reply(request)
    {
      ReplyIsPrefixed(request, inbox[0..s.taken], s.sent, served, response);
    }
    WholeStream(request);
  }

  /**
   The client's read of what the server has sent: success yields the prefixed
   request, and nothing but a disturbance or the limit can fail the read of a
   whole reply.
  */
  method ReadReply(connection: UnixSocketConnection, request: Message, ghost consumed: Bytes,
      ghost served: Option<Message>)
    returns (ok: bool, response: Bytes)
    requires connection.socket != null && connection.socket.Valid() && connection.socket.taken == 0
    requires consumed <= Frame(request) && Served(consumed, connection.socket.inbox, served)
    modifies connection.socket
    ensures ok ==> response == Reply(request) && |response| <= LIMIT
    ensures old(connection.socket.Undisturbed(false)) && |Reply(request)| <= LIMIT ==>
              old(connection.socket.inbox) == Frame(Reply(request)) ==> ok
  {
    ghost var inbox := connection.socket.inbox;
    ok, response := connection.ReceiveMessage(LIMIT, None);
    assert inbox[0..] == inbox;
    if ok {
      ReplyIsPrefixed(request, consumed, inbox, served, response);
    }
    if |Reply(request)| <= LIMIT {
      WholeStream(Reply(request));
    }
  }

  /**
   A whole exchange with the calls one after the other: the client sends its
   request, the server serves the connection, the client reads the reply.
   (SampleExchange has every way in which they may overlap.) `client` and `server` are the two
   ends of one connection. Success yields the prefixed request; if no transfer
   is disturbed the exchange succeeds exactly for requests of at most
   65536 - 18 = 65518 bytes.
  */
  method Exchange(client: StreamSocket, server: StreamSocket, request: Message) returns (ok: bool, response: Bytes)
    requires client != server && client.Valid() && server.Valid()
    requires client.sent == client.inbox == server.sent == server.inbox == [] && client.taken == server.taken == 0
    modifies client, server
    ensures ok ==> response == PREFIX + request
    ensures old(client.Undisturbed(false)) && old(server.Undisturbed(true)) ==> (ok <==> |request| <= 65518)
  {
    response := [];
    var connection := new UnixSocketConnection(client);
    ok := connection.SendMessage(request, None);
    if !ok {
      return;
    }
    WholeStream(request);
    server.inbox := client.sent;
    assert server.inbox == Frame(request) && server.inbox[0..] == Frame(request);
    ghost var served;
    ok, served := ServeOne(server);
    assert server.sent[0..] == server.sent;
    if ok {
      assert server.sent == Frame(Reply(served.value));
    }
    client.inbox := server.sent;
    ok, response := ReadReply(connection, request, server.inbox[0..server.taken], served);
  }

  /** A stream of one frame starts with that message. */
  lemma WholeStream(m: Message)
    ensures HasFrame(Frame(m)) && FirstMessage(Frame(m)) == m && Frame(m)[0..] == Frame(m)
  {
    JoinFrame(m, []);
    assert Frame(m) + [] == Frame(m);
  }
}
