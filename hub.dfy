/** The Event Hub and the Change Watcher of server.js: the messages pushed to
    WebSocket clients, `broadcast` (server.js:176-182) and the chokidar watcher's
    ignore rule and `add` handler (server.js:185-198). */
module Hub {
  import opened Base
  import opened Text
  import opened Lists

  /** The JSON messages on the real-time channel, by their `type` field.
      The server sends `new_image`, `test_progress` and `test_complete`;
      `image_deleted` and `directory_cleared` are handled by the gallery page
      (public/script.js:38-44) but server.js never sends them. A successful
      `test_complete` has no `error` field. */
  datatype Message =
    | NewImage(file: string)
    | TestProgress(data: string)
    | TestComplete(success: bool, error: Option<string>)
    | ImageDeleted(file: string)
    | DirectoryCleared

  /** The `readyState` of a ws connection. */
  datatype ReadyState = Connecting | Open | Closing | Closed

  datatype Client = Client(id: nat, state: ReadyState)

  predicate IsOpen(c: Client) { c.state == Open }

  /** One `client.send(JSON.stringify(data))` call. */
  datatype Delivery = Delivery(to: Client, msg: Message)

  /** broadcast (server.js:176-182): `client.send` is called with the
      message, in registry order, on exactly the clients whose state is
      OPEN. The sends are returned in the order they are made. */
  method Broadcast(clients: seq<Client>, msg: Message) returns (sends: seq<Delivery>)
    ensures |sends| == |Filter(clients, IsOpen)|
    ensures forall i | 0 <= i < |sends| :: sends[i] == Delivery(Filter(clients, IsOpen)[i], msg)
    ensures forall d | d in sends :: d.msg == msg && d.to in clients && d.to.state == Open
    ensures forall c | c in clients && c.state == Open :: Delivery(c, msg) in sends
    ensures forall c | c in clients && c.state != Open :: forall d | d in sends :: d.to != c
  {
    var sentTo: seq<Client> := [];
    sends := [];
    for i := 0 to |clients|
      invariant sentTo == Filter(clients[..i], IsOpen)
      invariant |sends| == |sentTo| && forall j | 0 <= j < |sends| :: sends[j] == Delivery(sentTo[j], msg)
    {
      FilterStep(clients, i, IsOpen);
      if clients[i].state == Open {
        sentTo := sentTo + [clients[i]];
        sends := sends + [Delivery(clients[i], msg)];
      }
    }
    assert clients[..|clients|] == clients;
    forall c | c in clients && c.state == Open ensures Delivery(c, msg) in sends {
      var j :| 0 <= j < |sentTo| && sentTo[j] == c;
      assert sends[j] == Delivery(c, msg);
    }
    forall d | d in sends ensures d.msg == msg && d.to in clients && d.to.state == Open {
      var j :| 0 <= j < |sends| && sends[j] == d;
      assert sentTo[j] in sentTo;
    }
  }

  /** The watcher's `ignored` pattern /initial\.|\.tmp$/ (server.js:186),
      applied to the whole path. */
  predicate Ignored(path: string)
  {
    Contains(path, "initial.") || EndsWith(path, ".tmp")
  }

  /** The watcher's `add` handler (server.js:193-198): a path that is not
      ignored is announced by its base name. */
  function OnAdd(path: string): (m: Option<Message>)
    ensures m.None? <==> Ignored(path)
    ensures m.Some? ==> m.value.NewImage? && EndsWith(path, m.value.file) && '/' !in m.value.file
    ensures m.Some? ==> |m.value.file| < |path| ==> path[|path| - |m.value.file| - 1] == '/'
  {
    if Ignored(path) then None else Some(NewImage(Basename(path)))
  }

  /** A temporary or initial file is never announced: no `new_image` names a
      file containing "initial." or ending in ".tmp". */
  lemma NoTemporaryAnnounced(path: string)
    requires OnAdd(path).Some?
    ensures !Contains(OnAdd(path).value.file, "initial.")
    ensures !EndsWith(OnAdd(path).value.file, ".tmp")
  {
    var b := Basename(path);
    var k := |path| - |b|;
    assert path[k..] == b;
    if Contains(b, "initial.") {
      ContainsInSuffix(path, k, "initial.");
    }
    if EndsWith(b, ".tmp") {
      EndsWithInSuffix(path, k, ".tmp");
    }
  }
}
