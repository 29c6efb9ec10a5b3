/** The chat end to end: a payload built by the hook, stamped and logged by the
    server, and broadcast back to a connected hook. */
module ChatSystem {
  import opened Payload
  import opened Seqs
  import ChatServer
  import ChatClient

  /** `a` is the tail end of `b`. */
  predicate IsSuffix(a: seq<Obj>, b: seq<Obj>)
  {
    |a| <= |b| && b[|b| - |a|..] == a
  }

  /** What every listening client receives for a send: the sender's fields and
      content exactly as the hook emitted them, plus the server's `id`. */
  lemma BroadcastCarriesPayload(a: ChatClient.Adapter, user: ChatClient.User, content: string, now: int,
                                p: ChatServer.Process, id: string)
    requires a.socket
    ensures var payload := ChatClient.SendMessage(a, Some(user), content, now).value;
            var m := ChatServer.Send(p, payload, id).1;
            && m.Keys == {"id", "userId", "userName", "content", "timestamp"}
            && HasStr(m, "id", id) && HasStr(m, "userId", user.id) && HasStr(m, "userName", user.name)
            && HasStr(m, "content", content) && m["timestamp"] == Num(now)
  {
  }

  /** A client that loaded the history on connecting and has received every
      broadcast since holds the server's log as the end of its list: the
      server only ever drops from the front what the client keeps. */
  lemma ClientKeepsServerLog(p: ChatServer.Process, a: ChatClient.Adapter, payload: Obj, id: string)
    requires IsSuffix(p.log, a.messages)
    requires a.messageHandlers == 1
    ensures var (p', m) := ChatServer.Send(p, payload, id);
            IsSuffix(p'.log, ChatClient.ReceiveMessage(a, m).messages)
  {
  }

  /** Connecting hands the client the log, which the history listener shows:
      the client's list becomes exactly the server's log. */
  lemma ConnectShowsLog(p: ChatServer.Process, a: ChatClient.Adapter)
    requires a.historyHandlers > 0
    ensures ChatClient.ReceiveHistory(a, ChatServer.Connect(p)).messages == p.log
    ensures IsSuffix(p.log, ChatClient.ReceiveHistory(a, ChatServer.Connect(p)).messages)
  {
  }

  /** After the first `POST /api/socket` has started the server, user `u1`
      named Alice sends "hello"; a listening client receives exactly that
      message with the fresh id the server drew. */
  lemma HelloScenario(a: ChatClient.Adapter, b: ChatClient.Adapter, now: int, id: string)
    requires a.socket && b.messageHandlers == 1
    ensures var payload := ChatClient.SendMessage(a, Some(ChatClient.User("u1", "Alice")), "hello", now).value;
            var (p', m) := ChatServer.Send(ChatServer.Post(ChatServer.Initial).0, payload, id);
            && p'.log == [m]
            && ChatClient.ReceiveMessage(b, m).messages == b.messages + [m]
            && HasStr(m, "content", "hello") && HasStr(m, "userId", "u1")
            && HasStr(m, "userName", "Alice") && HasStr(m, "id", id)
  {
  }
}
