/**
What is kept about connections so that they can be broken at any time: the
cleanup callbacks registered with each `Connection`, the `ProxyClient` objects,
and the `ConnThreads` maps from connections to `ProxyClient<Thread>` objects.
Everything here happens on the event loop thread; for maps that their own thread
destroys see ThreadExit.
*/
module Disconnect {
  import opened Base

  type Conn = nat
  type ClientId = nat
  type MapId = nat       // a request_threads or callback_threads map of some thread
  type NodeId = nat      // a list iterator (CleanupIt): the id of the callback it points to

  datatype Callback =
    | Detach(client: ClientId)     // registered by ProxyClientBase: sets its connection pointer to null
    | Forget(m: MapId)             // registered by SetThread: erases the map entry of the connection

  datatype Node = Node(conn: Conn, cb: Callback)

  datatype Client = Client(
    conn: Option<Conn>,                // m_context.connection
    detach: NodeId,                    // the iterator captured by its cleanup function
    disconnectCb: Option<NodeId>)      // ProxyClient<Thread>::m_disconnect_cb

  datatype Fate = Ran | Removed

  ghost predicate Decreasing(s: seq<NodeId>) {
    forall i, j | 0 <= i < j < |s| :: s[i] > s[j]
  }

  function Without(s: seq<NodeId>, x: NodeId): seq<NodeId> {
    if s == [] then [] else if s[0] == x then s[1..] else [s[0]] + Without(s[1..], x)
  }

  lemma DecreasingSplit(s: seq<NodeId>)
    requires s != []
    ensures Decreasing(s) <==> Decreasing(s[1..]) && forall y | y in s[1..] :: y < s[0]
  {
    if Decreasing(s[1..]) && forall y | y in s[1..] :: y < s[0] {
      forall i, j | 0 <= i < j < |s| ensures s[i] > s[j] {
        assert s[j] == s[1..][j - 1] && s[j] in s[1..];
        assert i > 0 ==> s[i] == s[1..][i - 1];
      }
    }
  }

  lemma {:induction false} WithoutKeepsOrder(s: seq<NodeId>, x: NodeId)
    requires Decreasing(s) && x in s
    ensures Decreasing(Without(s, x)) && |Without(s, x)| == |s| - 1
    ensures forall y :: y in Without(s, x) <==> y in s && y != x
  {
    DecreasingSplit(s);
    assert s == [s[0]] + s[1..];
    if s[0] != x {
      WithoutKeepsOrder(s[1..], x);
      var r := Without(s, x);
      assert r[1..] == Without(s[1..], x);
      DecreasingSplit(r);
    }
  }

  datatype Books = Books(
    lists: map<Conn, seq<NodeId>>,              // m_sync_cleanup_fns of each live connection, front first
    nodes: map<NodeId, Node>,                   // the callbacks on those lists
    clients: map<ClientId, Client>,             // live ProxyClient objects
    threads: map<(MapId, Conn), ClientId>,      // entries of the ConnThreads maps
    nextNode: NodeId,
    nextClient: ClientId,
    fate: map<NodeId, Fate>)                    // what became of the callbacks no longer listed
  {
    /** The list of `k` is in LIFO order and holds exactly its callbacks. */
    ghost predicate ListOk(k: Conn)
      requires k in lists
    {
      Decreasing(lists[k]) && forall x :: x in lists[k] <==> x in nodes && nodes[x].conn == k
    }

    /** A callback is on one list, or ran, or was removed; never two of these. */
    ghost predicate Fates() {
      forall x: NodeId :: (x in nodes || x in fate <==> x < nextNode) && !(x in nodes && x in fate)
    }

    ghost predicate Lists() {
      && (forall k | k in lists :: ListOk(k))
      && (forall x | x in nodes :: nodes[x].conn in lists)
      && Fates()
    }

    /** A client with a connection has its detach callback registered there, and no other has. */
    ghost predicate ClientOk(c: ClientId)
      requires c in clients
    {
      var cl := clients[c];
      && c < nextClient
      && (cl.conn.Some? ==> cl.detach in nodes && nodes[cl.detach] == Node(cl.conn.value, Detach(c)))
      && (cl.disconnectCb.Some? ==>
            var x := cl.disconnectCb.value;
            && x in nodes && nodes[x].cb.Forget? && cl.conn == Some(nodes[x].conn) && cl.detach < x
            && (nodes[x].cb.m, nodes[x].conn) in threads && threads[(nodes[x].cb.m, nodes[x].conn)] == c)
    }

    /** A registered callback belongs to a client, or to a map entry and its client. */
    ghost predicate NodeOk(x: NodeId)
      requires x in nodes
    {
      match nodes[x].cb
      case Detach(c) => c in clients && clients[c].conn == Some(nodes[x].conn) && clients[c].detach == x
      case Forget(m) =>
        && (m, nodes[x].conn) in threads && threads[(m, nodes[x].conn)] in clients
        && clients[threads[(m, nodes[x].conn)]].disconnectCb == Some(x)
    }

    ghost predicate EntryOk(m: MapId, k: Conn)
      requires (m, k) in threads
    {
      var c := threads[(m, k)];
      && c in clients && clients[c].conn == Some(k) && clients[c].disconnectCb.Some?
      && clients[c].disconnectCb.value in nodes && nodes[clients[c].disconnectCb.value] == Node(k, Forget(m))
    }

    ghost predicate Links() {
      && (forall c {:trigger ClientOk(c)} | c in clients :: ClientOk(c))
      && (forall x {:trigger NodeOk(x)} | x in nodes :: NodeOk(x))
      && (forall m, k {:trigger EntryOk(m, k)} | (m, k) in threads :: EntryOk(m, k))
    }

    ghost predicate Valid() {
      Lists() && Links()
    }

    /** `Connection::addSyncCleanup`: to the front. */
    function Add(k: Conn, cb: Callback): Books
      requires k in lists
    {
      this.(lists := lists[k := [nextNode] + lists[k]],
            nodes := nodes[nextNode := Node(k, cb)],
            nextNode := nextNode + 1)
    }

    /** `Connection::removeSyncCleanup`. */
    function Remove(x: NodeId): Books
      requires x in nodes && nodes[x].conn in lists
    {
      var k := nodes[x].conn;
      this.(lists := lists[k := Without(lists[k], x)], nodes := nodes - {x}, fate := fate[x := Removed])
    }

    /** `ProxyClientBase` constructor; the new client is `nextClient`. */
    function NewClient(k: Conn): Books
      requires k in lists
    {
      Add(k, Detach(nextClient))
        .(clients := clients[nextClient := Client(Some(k), nextNode, None)], nextClient := nextClient + 1)
    }

    /** `~ProxyClientBase`: unregister unless the connection is gone already. */
    function DestroyClient(c: ClientId): Books
      requires Lists() && c in clients && ClientOk(c)
    {
      (if clients[c].conn.Some? then Remove(clients[c].detach) else this).(clients := clients - {c})
    }

    /** `SetThread`: the entry of `k` in map `m`, made if there is none. */
    function SetThread(m: MapId, k: Conn): Books
      requires k in lists
    {
      if (m, k) in threads then this
      else
        NewClient(k).Add(k, Forget(m))
          .(clients := clients[nextClient := Client(Some(k), nextNode, Some(nextNode + 1))],
            threads := threads[(m, k) := nextClient])
    }

    /** Erasing an entry destroys its `ProxyClient<Thread>`, which unregisters both its callbacks. */
    function EraseThread(m: MapId, k: Conn): Books
      requires Valid()
    {
      if (m, k) !in threads then this
      else
        var c := threads[(m, k)];
        assert EntryOk(m, k) && ClientOk(c);
        Remove(clients[c].disconnectCb.value).Remove(clients[c].detach)
          .(threads := threads - {(m, k)}, clients := clients - {c})
    }

    /** Splice the first callback off the list of `k`. */
    function PopFront(k: Conn): Books
      requires k in lists && lists[k] != []
    {
      var x := lists[k][0];
      this.(lists := lists[k := lists[k][1..]], nodes := nodes - {x}, fate := fate[x := Ran])
    }

    /** One turn of the loop in `~Connection`: take the first callback off the list and run it. */
    function RunFront(k: Conn): Books
      requires Valid() && k in lists && lists[k] != []
    {
      var x := lists[k][0];
      assert ListOk(k) && x in lists[k] && NodeOk(x);
      match nodes[x].cb
      case Detach(c) => PopFront(k).(clients := clients[c := clients[c].(conn := None)])
      case Forget(m) =>
        // The entry goes, and with it its client, whose m_disconnect_cb was reset before.
        var c := threads[(m, k)];
        assert EntryOk(m, k) && ClientOk(c);
        PopFront(k).Remove(clients[c].detach).(threads := threads - {(m, k)}, clients := clients - {c})
    }
  }

  // ----- What an operation changes -------------------------------------------------------

  /** Clients and map entries of `d` other than `c` and `(m, k)` are those of `b`. */
  ghost predicate OthersKept(b: Books, d: Books, gone: set<ClientId>, e: set<(MapId, Conn)>) {
    && (forall c | c in b.clients && c !in gone :: c in d.clients && d.clients[c] == b.clients[c])
    && (forall m, k | (m, k) in b.threads && (m, k) !in e ::
          (m, k) in d.threads && d.threads[(m, k)] == b.threads[(m, k)])
    && d.lists.Keys == b.lists.Keys
  }

  /** A new client makes itself and one callback, which is called first if the connection breaks. */
  lemma NewClientMakes(b: Books, k: Conn)
    requires b.Valid() && k in b.lists
    ensures var d := b.NewClient(k);
            && OthersKept(b, d, {}, {}) && d.threads == b.threads && d.fate == b.fate
            && d.clients.Keys == b.clients.Keys + {b.nextClient} && b.nextClient !in b.clients
            && d.clients[b.nextClient].conn == Some(k)
            && d.nodes == b.nodes[b.nextNode := Node(k, Detach(b.nextClient))] && b.nextNode !in b.nodes
            && d.lists == b.lists[k := [b.nextNode] + b.lists[k]]
  {
    assert b.nextClient in b.clients ==> b.ClientOk(b.nextClient);
    assert b.Fates();
  }

  /** Asking for the entry of a connection makes it once; after that it is found, and nothing is made. */
  lemma SetThreadMakesOnce(b: Books, m: MapId, k: Conn)
    requires b.Valid() && k in b.lists
    ensures var d := b.SetThread(m, k);
            && OthersKept(b, d, {}, {}) && d.fate == b.fate
            && d.SetThread(m, k) == d
            && ((m, k) in b.threads ==> d == b)
  {
    assert b.nextClient in b.clients ==> b.ClientOk(b.nextClient);
  }

  /** What is made: an entry, a client and two callbacks, that of the entry in front. */
  lemma SetThreadMakes(b: Books, m: MapId, k: Conn)
    requires b.Valid() && k in b.lists && (m, k) !in b.threads
    ensures var d := b.SetThread(m, k);
            && d.threads == b.threads[(m, k) := b.nextClient]
            && d.clients.Keys == b.clients.Keys + {b.nextClient} && b.nextClient !in b.clients
            && d.nodes == b.nodes[b.nextNode := Node(k, Detach(b.nextClient))][b.nextNode + 1 := Node(k, Forget(m))]
            && d.lists == b.lists[k := [b.nextNode + 1, b.nextNode] + b.lists[k]]
  {
    assert b.nextClient in b.clients ==> b.ClientOk(b.nextClient);
    assert [b.nextNode + 1] + ([b.nextNode] + b.lists[k]) == [b.nextNode + 1, b.nextNode] + b.lists[k];
  }

  /** A client that is destroyed takes its own callback off the list, if it has a connection, and nothing else. */
  lemma DestroyClientTakes(b: Books, c: ClientId)
    requires b.Valid() && c in b.clients && b.clients[c].disconnectCb.None?
    ensures b.ClientOk(c)
    ensures var d := b.DestroyClient(c);
            var x := b.clients[c].detach;
            && OthersKept(b, d, {c}, {}) && d.threads == b.threads && c !in d.clients
            && d.clients.Keys == b.clients.Keys - {c}
            && (if b.clients[c].conn.Some? then d.nodes == b.nodes - {x} && d.fate == b.fate[x := Removed]
                else d.nodes == b.nodes && d.fate == b.fate && d.lists == b.lists)
  {
    assert b.ClientOk(c);
  }

  /** An entry that is erased takes its client and both callbacks; where there is none nothing happens. */
  lemma EraseThreadTakes(b: Books, m: MapId, k: Conn)
    requires b.Valid()
    ensures var d := b.EraseThread(m, k);
            && ((m, k) !in b.threads ==> d == b)
            && ((m, k) in b.threads ==>
                  var c := b.threads[(m, k)];
                  && c in b.clients && b.clients[c].disconnectCb.Some?
                  && OthersKept(b, d, {c}, {(m, k)})
                  && d.threads == b.threads - {(m, k)} && d.clients == b.clients - {c}
                  && d.nodes == b.nodes - {b.clients[c].detach, b.clients[c].disconnectCb.value})
  {
    if (m, k) in b.threads {
      var c := b.threads[(m, k)];
      assert b.EntryOk(m, k) && b.ClientOk(c);
      assert b.nodes - {b.clients[c].disconnectCb.value} - {b.clients[c].detach} ==
             b.nodes - {b.clients[c].detach, b.clients[c].disconnectCb.value};
    }
  }

  // ----- The lists ---------------------------------------------------------------------

  lemma AddLists(b: Books, k: Conn, cb: Callback)
    requires b.Lists() && k in b.lists
    ensures b.Add(k, cb).Lists()
  {
    var b' := b.Add(k, cb);
    forall i | 0 <= i < |b.lists[k]| ensures b.lists[k][i] < b.nextNode {
      assert b.lists[k][i] in b.lists[k];
    }
    assert b'.ListOk(k);
    forall k' | k' in b'.lists && k' != k ensures b'.ListOk(k') {
      assert b.ListOk(k');
    }
  }

  lemma RemoveLists(b: Books, x: NodeId)
    requires b.Lists() && x in b.nodes
    ensures b.Remove(x).Lists()
  {
    var b', k := b.Remove(x), b.nodes[x].conn;
    assert b.ListOk(k);
    WithoutKeepsOrder(b.lists[k], x);
    assert b'.ListOk(k);
    forall k' | k' in b'.lists && k' != k ensures b'.ListOk(k') {
      assert b.ListOk(k');
    }
  }

  // ----- Each operation keeps the books valid --------------------------------------------

  lemma SameLists(b: Books, b': Books)
    requires b.Lists() && b'.lists == b.lists && b'.nodes == b.nodes && b'.fate == b.fate && b'.nextNode == b.nextNode
    ensures b'.Lists()
  {
    forall k | k in b'.lists ensures b'.ListOk(k) {
      assert b.ListOk(k);
    }
  }

  lemma NewClientLists(b: Books, k: Conn)
    requires b.Lists() && k in b.lists
    ensures b.NewClient(k).Lists()
  {
    AddLists(b, k, Detach(b.nextClient));
    SameLists(b.Add(k, Detach(b.nextClient)), b.NewClient(k));
  }

  lemma NewClientLinks(b: Books, k: Conn)
    requires b.Valid() && k in b.lists
    ensures b.NewClient(k).Links()
  {
    var b' := b.NewClient(k);
    forall c | c in b'.clients ensures b'.ClientOk(c) {
      assert c != b.nextClient ==> b.ClientOk(c);
    }
    forall x | x in b'.nodes ensures b'.NodeOk(x) {
      if x != b.nextNode {
        assert b.NodeOk(x);
        if b.nodes[x].cb.Detach? {
          assert b.ClientOk(b.nodes[x].cb.client);
        } else {
          assert b.ClientOk(b.threads[(b.nodes[x].cb.m, b.nodes[x].conn)]);
        }
      }
    }
    forall m, j | (m, j) in b'.threads ensures b'.EntryOk(m, j) {
      assert b.EntryOk(m, j) && b.ClientOk(b.threads[(m, j)]);
    }
  }

  lemma NewClientValid(b: Books, k: Conn)
    requires b.Valid() && k in b.lists
    ensures b.NewClient(k).Valid()
  {
    NewClientLists(b, k);
    NewClientLinks(b, k);
  }

  lemma SetThreadNodes(b: Books, m: MapId, k: Conn, x: NodeId)
    requires b.Links() && b.Fates() && k in b.lists && (m, k) !in b.threads && x in b.SetThread(m, k).nodes
    ensures b.SetThread(m, k).NodeOk(x)
  {
    if x in b.nodes {
      assert b.NodeOk(x);
      if b.nodes[x].cb.Detach? {
        assert b.ClientOk(b.nodes[x].cb.client);
      } else {
        assert b.ClientOk(b.threads[(b.nodes[x].cb.m, b.nodes[x].conn)]);
      }
    }
  }

  lemma SetThreadLinks(b: Books, m: MapId, k: Conn)
    requires b.Links() && b.Fates() && k in b.lists && (m, k) !in b.threads
    ensures b.SetThread(m, k).Links()
  {
    var b' := b.SetThread(m, k);
    forall c | c in b'.clients ensures b'.ClientOk(c) {
      assert c != b.nextClient ==> b.ClientOk(c);
    }
    forall x | x in b'.nodes ensures b'.NodeOk(x) {
      SetThreadNodes(b, m, k, x);
    }
    forall n, j | (n, j) in b'.threads ensures b'.EntryOk(n, j) {
      if (n, j) != (m, k) {
        assert b.EntryOk(n, j) && b.ClientOk(b.threads[(n, j)]);
      }
    }
  }

  lemma SetThreadValid(b: Books, m: MapId, k: Conn)
    requires b.Valid() && k in b.lists
    ensures b.SetThread(m, k).Valid() && (m, k) in b.SetThread(m, k).threads
  {
    if (m, k) !in b.threads {
      NewClientLists(b, k);
      AddLists(b.NewClient(k), k, Forget(m));
      SameLists(b.NewClient(k).Add(k, Forget(m)), b.SetThread(m, k));
      SetThreadLinks(b, m, k);
    }
  }

  /** The callbacks that belong to client `c`. */
  ghost function NodesOf(b: Books, c: ClientId): set<NodeId>
    requires c in b.clients
  {
    (if b.clients[c].conn.Some? then {b.clients[c].detach} else {})
    + (if b.clients[c].disconnectCb.Some? then {b.clients[c].disconnectCb.value} else {})
  }

  /** `c` disappears with everything that points to it, its map entry `e` if it has one included. */
  ghost predicate Forgotten(b: Books, b': Books, c: ClientId, e: set<(MapId, Conn)>) {
    && c in b.clients
    && b'.clients == b.clients - {c}
    && b'.nodes == b.nodes - NodesOf(b, c)
    && b'.nextClient == b.nextClient
    && b'.threads == b.threads - e
    && (forall m, k | (m, k) in b.threads :: b.threads[(m, k)] == c <==> (m, k) in e)
  }

  lemma ForgottenClient(b: Books, b': Books, c: ClientId, e: set<(MapId, Conn)>, d: ClientId)
    requires b.Links() && Forgotten(b, b', c, e) && d in b'.clients
    ensures b'.ClientOk(d)
  {
    assert b.ClientOk(c) && b.ClientOk(d);
  }

  lemma ForgottenNode(b: Books, b': Books, c: ClientId, e: set<(MapId, Conn)>, x: NodeId)
    requires b.Links() && Forgotten(b, b', c, e) && x in b'.nodes
    ensures b'.NodeOk(x)
  {
    assert b.ClientOk(c) && b.NodeOk(x);
  }

  lemma ForgottenEntry(b: Books, b': Books, c: ClientId, e: set<(MapId, Conn)>, m: MapId, k: Conn)
    requires b.Links() && Forgotten(b, b', c, e) && (m, k) in b'.threads
    ensures b'.EntryOk(m, k)
  {
    assert b.ClientOk(c) && b.EntryOk(m, k);
    assert b.ClientOk(b.threads[(m, k)]);
  }

  lemma ForgottenLinks(b: Books, b': Books, c: ClientId, e: set<(MapId, Conn)>)
    requires b.Links() && Forgotten(b, b', c, e)
    ensures b'.Links()
  {
    forall d | d in b'.clients ensures b'.ClientOk(d) {
      ForgottenClient(b, b', c, e, d);
    }
    forall x | x in b'.nodes ensures b'.NodeOk(x) {
      ForgottenNode(b, b', c, e, x);
    }
    forall m, k | (m, k) in b'.threads ensures b'.EntryOk(m, k) {
      ForgottenEntry(b, b', c, e, m, k);
    }
  }

  /** Different map entries have different clients. */
  lemma OnlyEntry(b: Books, m: MapId, k: Conn, n: MapId, j: Conn)
    requires b.Links() && (m, k) in b.threads && (n, j) in b.threads
    ensures b.threads[(m, k)] == b.threads[(n, j)] <==> (m, k) == (n, j)
  {
    assert b.EntryOk(m, k) && b.EntryOk(n, j);
    assert b.ClientOk(b.threads[(m, k)]);
  }

  lemma DestroyClientForgets(b: Books, c: ClientId)
    requires b.Valid() && c in b.clients && b.clients[c].disconnectCb.None?
    ensures b.ClientOk(c) && Forgotten(b, b.DestroyClient(c), c, {})
  {
    assert b.ClientOk(c);
    forall m, k | (m, k) in b.threads ensures b.threads[(m, k)] != c {
      assert b.EntryOk(m, k);
    }
    assert b.threads - {} == b.threads;
  }

  lemma DestroyClientValid(b: Books, c: ClientId)
    requires b.Valid() && c in b.clients && b.clients[c].disconnectCb.None?
    ensures b.ClientOk(c) && b.DestroyClient(c).Valid()
  {
    DestroyClientForgets(b, c);
    var b' := b.DestroyClient(c);
    if b.clients[c].conn.Some? {
      RemoveLists(b, b.clients[c].detach);
      SameLists(b.Remove(b.clients[c].detach), b');
    } else {
      SameLists(b, b');
    }
    ForgottenLinks(b, b', c, {});
  }

  lemma EraseThreadForgets(b: Books, m: MapId, k: Conn)
    requires b.Valid() && (m, k) in b.threads
    ensures Forgotten(b, b.EraseThread(m, k), b.threads[(m, k)], {(m, k)})
  {
    assert b.EntryOk(m, k) && b.ClientOk(b.threads[(m, k)]);
    forall n, j | (n, j) in b.threads ensures b.threads[(n, j)] == b.threads[(m, k)] <==> (n, j) in {(m, k)} {
      OnlyEntry(b, m, k, n, j);
    }
  }

  lemma EraseThreadValid(b: Books, m: MapId, k: Conn)
    requires b.Valid()
    ensures b.EraseThread(m, k).Valid() && (m, k) !in b.EraseThread(m, k).threads
  {
    if (m, k) in b.threads {
      var c := b.threads[(m, k)];
      assert b.EntryOk(m, k) && b.ClientOk(c);
      var x, y := b.clients[c].disconnectCb.value, b.clients[c].detach;
      RemoveLists(b, x);
      RemoveLists(b.Remove(x), y);
      SameLists(b.Remove(x).Remove(y), b.EraseThread(m, k));
      EraseThreadForgets(b, m, k);
      ForgottenLinks(b, b.EraseThread(m, k), c, {(m, k)});
    }
  }

  // ----- The drain loop of ~Connection ----------------------------------------------------

  lemma PopFrontLists(b: Books, k: Conn)
    requires b.Lists() && k in b.lists && b.lists[k] != []
    ensures b.PopFront(k).Lists()
    ensures b.lists[k][0] in b.nodes && b.nodes[b.lists[k][0]].conn == k
    ensures forall y | y in b.nodes && b.nodes[y].conn == k :: y <= b.lists[k][0]
  {
    var b' := b.PopFront(k);
    var x := b.lists[k][0];
    assert b.ListOk(k);
    assert b.lists[k] == [x] + b.lists[k][1..];
    assert b'.ListOk(k);
    forall j | j in b'.lists && j != k ensures b'.ListOk(j) {
      assert b.ListOk(j);
    }
    forall y | y in b.nodes && b.nodes[y].conn == k ensures y <= x {
      assert y in b.lists[k];
    }
  }

  /** A client whose detach callback is first has no map entry: the entry's callback would come before. */
  lemma FrontDetaches(b: Books, k: Conn)
    requires b.Valid() && k in b.lists && b.lists[k] != []
    ensures var x := b.lists[k][0];
            x in b.nodes && b.nodes[x].conn == k && b.NodeOk(x)
            && (b.nodes[x].cb.Detach? ==> b.clients[b.nodes[x].cb.client].disconnectCb.None?)
  {
    PopFrontLists(b, k);
    var x := b.lists[k][0];
    assert b.NodeOk(x);
    if b.nodes[x].cb.Detach? {
      assert b.ClientOk(b.nodes[x].cb.client);
    }
  }

  lemma RunDetachLinks(b: Books, k: Conn)
    requires b.Valid() && k in b.lists && b.lists[k] != [] && b.lists[k][0] in b.nodes
    requires b.nodes[b.lists[k][0]].cb.Detach?
    ensures b.RunFront(k).Links()
  {
    FrontDetaches(b, k);
    var b', x := b.RunFront(k), b.lists[k][0];
    var c := b.nodes[x].cb.client;
    forall d | d in b'.clients ensures b'.ClientOk(d) {
      assert b.ClientOk(d);
    }
    forall y | y in b'.nodes ensures b'.NodeOk(y) {
      assert b.NodeOk(y);
    }
    forall m, j | (m, j) in b'.threads ensures b'.EntryOk(m, j) {
      assert b.EntryOk(m, j);
    }
  }

  lemma RunForgetForgets(b: Books, k: Conn)
    requires b.Valid() && k in b.lists && b.lists[k] != [] && b.lists[k][0] in b.nodes
    requires b.nodes[b.lists[k][0]].cb.Forget?
    ensures var m := b.nodes[b.lists[k][0]].cb.m;
            (m, k) in b.threads && Forgotten(b, b.RunFront(k), b.threads[(m, k)], {(m, k)})
  {
    FrontDetaches(b, k);
    var m := b.nodes[b.lists[k][0]].cb.m;
    assert b.EntryOk(m, k) && b.ClientOk(b.threads[(m, k)]);
    forall n, j | (n, j) in b.threads ensures b.threads[(n, j)] == b.threads[(m, k)] <==> (n, j) in {(m, k)} {
      OnlyEntry(b, m, k, n, j);
    }
  }

  lemma RunFrontValid(b: Books, k: Conn)
    requires b.Valid() && k in b.lists && b.lists[k] != []
    ensures b.RunFront(k).Valid()
    ensures k in b.RunFront(k).lists && |b.RunFront(k).lists[k]| < |b.lists[k]|
  {
    FrontDetaches(b, k);
    PopFrontLists(b, k);
    var b', p, x := b.RunFront(k), b.PopFront(k), b.lists[k][0];
    if b.nodes[x].cb.Detach? {
      SameLists(p, b');
      RunDetachLinks(b, k);
    } else {
      RunForgetForgets(b, k);
      var c := b.threads[(b.nodes[x].cb.m, k)];
      assert b.ClientOk(c) && b.EntryOk(b.nodes[x].cb.m, k);
      RemoveLists(p, b.clients[c].detach);
      assert p.ListOk(k);
      WithoutKeepsOrder(p.lists[k], b.clients[c].detach);
      SameLists(p.Remove(b.clients[c].detach), b');
      ForgottenLinks(b, b', c, {(b.nodes[x].cb.m, k)});
    }
  }

  /** `while (!m_sync_cleanup_fns.empty())`. */
  function Drain(b: Books, k: Conn): Books
    requires b.Valid() && k in b.lists
    decreases |b.lists[k]|
  {
    if b.lists[k] == [] then b
    else
      RunFrontValid(b, k);
      Drain(b.RunFront(k), k)
  }

  // ----- What breaking a connection does -----------------------------------------------------

  /** A callback of the connection runs, unless running another one destroys the client it is for. */
  function FateOf(b: Books, x: NodeId): Fate
    requires x in b.nodes
  {
    match b.nodes[x].cb
    case Forget(_) => Ran
    case Detach(c) => if c in b.clients && b.clients[c].disconnectCb.Some? then Removed else Ran
  }

  ghost predicate ClientAfter(b: Books, d: Books, k: Conn, c: ClientId)
    requires c in b.clients
  {
    || (c in d.clients && d.clients[c] == b.clients[c])
    || (b.clients[c].conn == Some(k)
        && if b.clients[c].disconnectCb.Some? then c !in d.clients
           else c in d.clients && d.clients[c] == b.clients[c].(conn := None))
  }

  ghost predicate NodeAfter(b: Books, d: Books, k: Conn, x: NodeId)
    requires x in b.nodes
  {
    || (x in d.nodes && d.nodes[x] == b.nodes[x])
    || (b.nodes[x].conn == k && x !in d.nodes && x in d.fate && d.fate[x] == FateOf(b, x))
  }

  ghost predicate EntryAfter(b: Books, d: Books, k: Conn, m: MapId, j: Conn)
    requires (m, j) in b.threads
  {
    j == k || ((m, j) in d.threads && d.threads[(m, j)] == b.threads[(m, j)])
  }

  /** `d` is `b` with some of the callbacks of connection `k` dealt with, and nothing else changed. */
  ghost predicate Between(b: Books, d: Books, k: Conn) {
    && d.clients.Keys <= b.clients.Keys && d.nodes.Keys <= b.nodes.Keys && d.threads.Keys <= b.threads.Keys
    && (forall c {:trigger ClientAfter(b, d, k, c)} | c in b.clients :: ClientAfter(b, d, k, c))
    && (forall x {:trigger NodeAfter(b, d, k, x)} | x in b.nodes :: NodeAfter(b, d, k, x))
    && (forall m, j {:trigger EntryAfter(b, d, k, m, j)} | (m, j) in b.threads :: EntryAfter(b, d, k, m, j))
    && (forall x | x in b.fate :: x in d.fate && d.fate[x] == b.fate[x])
    && d.lists.Keys == b.lists.Keys && (forall j | j in b.lists && j != k :: d.lists[j] == b.lists[j])
    && d.nextNode == b.nextNode && d.nextClient == b.nextClient
  }

  lemma BetweenSelf(b: Books, k: Conn)
    ensures Between(b, b, k)
  {
  }

  /**
  From `d` to `d'` the callbacks `gone`, all of connection `k`, meet their fate,
  client `a` meets its own, and of the map entries at most one of `k` goes.
  */
  ghost predicate OneTurn(b: Books, d: Books, d': Books, k: Conn, a: ClientId, gone: set<NodeId>) {
    && a in b.clients && a in d.clients && ClientAfter(b, d', k, a)
    && d'.clients.Keys <= d.clients.Keys
    && (forall c | c in d.clients && c != a :: c in d'.clients && d'.clients[c] == d.clients[c])
    && d'.nodes == d.nodes - gone
    && (forall x | x in gone :: x in b.nodes && b.nodes[x].conn == k && x in d'.fate && d'.fate[x] == FateOf(b, x))
    && (forall x | x in d.fate :: x in d'.fate && d'.fate[x] == d.fate[x])
    && d'.threads.Keys <= d.threads.Keys
    && (forall e | e in d.threads && e.1 != k :: e in d'.threads && d'.threads[e] == d.threads[e])
    && d'.lists.Keys == d.lists.Keys && (forall j | j in d.lists && j != k :: d'.lists[j] == d.lists[j])
    && d'.nextNode == d.nextNode && d'.nextClient == d.nextClient
  }

  lemma OneTurnBetween(b: Books, d: Books, d': Books, k: Conn, a: ClientId, gone: set<NodeId>)
    requires Between(b, d, k) && OneTurn(b, d, d', k, a, gone)
    ensures Between(b, d', k)
  {
    forall c | c in b.clients ensures ClientAfter(b, d', k, c) {
      assert ClientAfter(b, d, k, c);
    }
    forall x | x in b.nodes ensures NodeAfter(b, d', k, x) {
      assert NodeAfter(b, d, k, x);
    }
    forall m, j | (m, j) in b.threads ensures EntryAfter(b, d', k, m, j) {
      assert EntryAfter(b, d, k, m, j);
    }
  }

  /** What running a Detach callback `x` of client `a` changes. */
  ghost predicate Detaches(d: Books, d': Books, k: Conn, x: NodeId, a: ClientId) {
    && a in d.clients
    && d'.clients == d.clients[a := d.clients[a].(conn := None)]
    && d'.nodes == d.nodes - {x} && d'.fate == d.fate[x := Ran] && d'.threads == d.threads
    && d'.lists.Keys == d.lists.Keys && (forall j | j in d.lists && j != k :: d'.lists[j] == d.lists[j])
    && d'.nextNode == d.nextNode && d'.nextClient == d.nextClient
  }

  lemma RunDetach(d: Books, k: Conn)
    requires d.Valid() && k in d.lists && d.lists[k] != [] && d.lists[k][0] in d.nodes
    requires d.nodes[d.lists[k][0]].cb.Detach?
    ensures d.NodeOk(d.lists[k][0]) && d.nodes[d.lists[k][0]].conn == k && d.lists[k][0] !in d.fate
    ensures Detaches(d, d.RunFront(k), k, d.lists[k][0], d.nodes[d.lists[k][0]].cb.client)
  {
    FrontDetaches(d, k);
    assert d.Fates();
  }

  lemma DetachTurn(b: Books, d: Books, d': Books, k: Conn, x: NodeId, a: ClientId)
    requires d.Fates() && Between(b, d, k) && Detaches(d, d', k, x, a)
    requires x in d.nodes && d.nodes[x] == Node(k, Detach(a)) && d.NodeOk(x) && d.clients[a].disconnectCb.None?
    ensures OneTurn(b, d, d', k, a, {x})
  {
    assert NodeAfter(b, d, k, x) && ClientAfter(b, d, k, a);
  }

  /** What running a Forget callback `x` for the entry (m, k) of client `a` changes. */
  ghost predicate Forgets(d: Books, d': Books, k: Conn, x: NodeId, m: MapId, a: ClientId) {
    && a in d.clients
    && d'.clients == d.clients - {a}
    && d'.nodes == d.nodes - {x, d.clients[a].detach}
    && d'.fate == d.fate[x := Ran][d.clients[a].detach := Removed]
    && d'.threads == d.threads - {(m, k)}
    && d'.lists.Keys == d.lists.Keys && (forall j | j in d.lists && j != k :: d'.lists[j] == d.lists[j])
    && d'.nextNode == d.nextNode && d'.nextClient == d.nextClient
  }

  lemma RunForget(d: Books, k: Conn)
    requires d.Valid() && k in d.lists && d.lists[k] != [] && d.lists[k][0] in d.nodes
    requires d.nodes[d.lists[k][0]].cb.Forget?
    ensures d.NodeOk(d.lists[k][0]) && d.nodes[d.lists[k][0]].conn == k
    ensures var m := d.nodes[d.lists[k][0]].cb.m;
            Forgets(d, d.RunFront(k), k, d.lists[k][0], m, d.threads[(m, k)])
  {
    FrontDetaches(d, k);
    var m := d.nodes[d.lists[k][0]].cb.m;
    assert d.EntryOk(m, k) && d.ClientOk(d.threads[(m, k)]);
    assert d.nodes - {d.lists[k][0]} - {d.clients[d.threads[(m, k)]].detach}
        == d.nodes - {d.lists[k][0], d.clients[d.threads[(m, k)]].detach};
  }

  lemma ForgetTurn(b: Books, d: Books, d': Books, k: Conn, x: NodeId, m: MapId, a: ClientId)
    requires d.Links() && d.Fates() && Between(b, d, k) && Forgets(d, d', k, x, m, a)
    requires (m, k) in d.threads && d.threads[(m, k)] == a && x in d.nodes && d.nodes[x] == Node(k, Forget(m))
    ensures OneTurn(b, d, d', k, a, {x, d.clients[a].detach})
  {
    assert d.EntryOk(m, k) && d.ClientOk(a);
    assert NodeAfter(b, d, k, x) && ClientAfter(b, d, k, a) && NodeAfter(b, d, k, d.clients[a].detach);
  }

  lemma {:induction false} DrainBetween(b: Books, d: Books, k: Conn)
    requires b.Valid() && d.Valid() && Between(b, d, k) && k in d.lists
    ensures Between(b, Drain(d, k), k) && Drain(d, k).Valid() && k in Drain(d, k).lists && Drain(d, k).lists[k] == []
    decreases |d.lists[k]|
  {
    if d.lists[k] != [] {
      FrontDetaches(d, k);
      var x := d.lists[k][0];
      if d.nodes[x].cb.Detach? {
        RunDetach(d, k);
        DetachTurn(b, d, d.RunFront(k), k, x, d.nodes[x].cb.client);
        OneTurnBetween(b, d, d.RunFront(k), k, d.nodes[x].cb.client, {x});
      } else {
        RunForget(d, k);
        var a := d.threads[(d.nodes[x].cb.m, k)];
        ForgetTurn(b, d, d.RunFront(k), k, x, d.nodes[x].cb.m, a);
        OneTurnBetween(b, d, d.RunFront(k), k, a, {x, d.clients[a].detach});
      }
      RunFrontValid(d, k);
      DrainBetween(b, d.RunFront(k), k);
    }
  }

  /** Everything about a broken connection is gone, and nothing else has changed. */
  ghost predicate Broken(b: Books, d: Books, k: Conn) {
    // No map has the connection as a key; other entries are as before.
    && (forall m, j | (m, j) in d.threads :: j != k && (m, j) in b.threads && d.threads[(m, j)] == b.threads[(m, j)])
    && (forall m, j | (m, j) in b.threads && j != k :: (m, j) in d.threads)
    // Clients of the connection: those in maps are destroyed, the others survive without a connection.
    && (forall c | c in d.clients :: c in b.clients && d.clients[c].conn != Some(k))
    && (forall c | c in b.clients ::
          if b.clients[c].conn != Some(k) then c in d.clients && d.clients[c] == b.clients[c]
          else if b.clients[c].disconnectCb.Some? then c !in d.clients
          else c in d.clients && d.clients[c] == b.clients[c].(conn := None))
    // Callbacks of the connection: each ran once or was removed once.
    && (forall x | x in b.nodes && b.nodes[x].conn == k :: x !in d.nodes && x in d.fate && d.fate[x] == FateOf(b, x))
    && (forall x | x in b.nodes && b.nodes[x].conn != k :: x in d.nodes && d.nodes[x] == b.nodes[x])
    && (forall x | x in b.fate :: x in d.fate && d.fate[x] == b.fate[x])
  }

  lemma DrainedNode(b: Books, d: Books, k: Conn, x: NodeId)
    requires b.Valid() && d.Valid() && Between(b, d, k) && k in d.lists && d.lists[k] == [] && x in b.nodes
    ensures if b.nodes[x].conn == k then x !in d.nodes && x in d.fate && d.fate[x] == FateOf(b, x)
            else x in d.nodes && d.nodes[x] == b.nodes[x]
  {
    assert d.ListOk(k) && NodeAfter(b, d, k, x);
  }

  lemma DrainedClient(b: Books, d: Books, k: Conn, c: ClientId)
    requires b.Valid() && d.Valid() && Between(b, d, k) && k in d.lists && d.lists[k] == [] && c in b.clients
    ensures if b.clients[c].conn != Some(k) then c in d.clients && d.clients[c] == b.clients[c]
            else if b.clients[c].disconnectCb.Some? then c !in d.clients
            else c in d.clients && d.clients[c] == b.clients[c].(conn := None)
  {
    assert d.ListOk(k) && ClientAfter(b, d, k, c);
    if c in d.clients {
      assert d.ClientOk(c);
    }
  }

  lemma DrainedEntry(b: Books, d: Books, k: Conn, m: MapId, j: Conn)
    requires b.Valid() && d.Valid() && Between(b, d, k) && k in d.lists && d.lists[k] == [] && (m, j) in b.threads
    ensures j == k ==> (m, j) !in d.threads
    ensures j != k ==> (m, j) in d.threads && d.threads[(m, j)] == b.threads[(m, j)]
  {
    assert d.ListOk(k) && EntryAfter(b, d, k, m, j);
    if (m, j) in d.threads {
      assert d.EntryOk(m, j);
    }
  }

  /** `~Connection`, with any mix of live clients and map entries. */
  lemma DrainBreaks(b: Books, k: Conn)
    requires b.Valid() && k in b.lists
    ensures Drain(b, k).Valid() && k in Drain(b, k).lists && Drain(b, k).lists[k] == []
    ensures Broken(b, Drain(b, k), k)
    ensures forall j | j in b.lists && j != k :: j in Drain(b, k).lists && Drain(b, k).lists[j] == b.lists[j]
  {
    BetweenSelf(b, k);
    DrainBetween(b, b, k);
    var d := Drain(b, k);
    forall x | x in b.nodes
      ensures if b.nodes[x].conn == k then x !in d.nodes && x in d.fate && d.fate[x] == FateOf(b, x)
              else x in d.nodes && d.nodes[x] == b.nodes[x]
    {
      DrainedNode(b, d, k, x);
    }
    forall c | c in b.clients
      ensures if b.clients[c].conn != Some(k) then c in d.clients && d.clients[c] == b.clients[c]
              else if b.clients[c].disconnectCb.Some? then c !in d.clients
              else c in d.clients && d.clients[c] == b.clients[c].(conn := None)
    {
      DrainedClient(b, d, k, c);
    }
    forall m, j | (m, j) in b.threads
      ensures (j == k ==> (m, j) !in d.threads)
           && (j != k ==> (m, j) in d.threads && d.threads[(m, j)] == b.threads[(m, j)])
    {
      DrainedEntry(b, d, k, m, j);
    }
  }

  /** The connection object itself is gone after the loop. */
  function Break(b: Books, k: Conn): Books
    requires b.Valid() && k in b.lists
  {
    Drain(b, k).(lists := Drain(b, k).lists - {k})
  }

  lemma BreakValid(b: Books, k: Conn)
    requires b.Valid() && k in b.lists
    ensures Break(b, k).Valid() && k !in Break(b, k).lists && Broken(b, Break(b, k), k)
  {
    DrainBreaks(b, k);
    var d, d' := Drain(b, k), Break(b, k);
    assert d.ListOk(k);
    forall j | j in d'.lists ensures d'.ListOk(j) {
      assert d.ListOk(j);
    }
    forall c | c in d'.clients ensures d'.ClientOk(c) {
      assert d.ClientOk(c);
    }
    forall x | x in d'.nodes ensures d'.NodeOk(x) {
      assert d.NodeOk(x);
    }
    forall m, j | (m, j) in d'.threads ensures d'.EntryOk(m, j) {
      assert d.EntryOk(m, j);
    }
  }

  lemma ConnectValid(b: Books, k: Conn)
    requires b.Valid() && k !in b.lists
    ensures b.(lists := b.lists[k := []]).Valid()
  {
    var b' := b.(lists := b.lists[k := []]);
    forall j | j in b'.lists ensures b'.ListOk(j) {
      assert j != k ==> b.ListOk(j);
    }
    forall c | c in b'.clients ensures b'.ClientOk(c) {
      assert b.ClientOk(c);
    }
    forall x | x in b'.nodes ensures b'.NodeOk(x) {
      assert b.NodeOk(x);
    }
    forall m, j | (m, j) in b'.threads ensures b'.EntryOk(m, j) {
      assert b.EntryOk(m, j);
    }
  }

  // ----- Every history ----------------------------------------------------------------------------

  datatype Op =
    | DoConnect(k: Conn)
    | DoNewClient(k: Conn)
    | DoDestroyClient(c: ClientId)
    | DoSetThread(m: MapId, k: Conn)
    | DoEraseThread(m: MapId, k: Conn)
    | DoBreak(k: Conn)

  ghost predicate Can(b: Books, op: Op) {
    match op
    case DoConnect(k) => k !in b.lists
    case DoNewClient(k) => k in b.lists
    case DoDestroyClient(c) => c in b.clients && b.clients[c].disconnectCb.None?
    case DoSetThread(_, k) => k in b.lists
    case DoEraseThread(_, _) => true
    case DoBreak(k) => k in b.lists
  }

  ghost function Do(b: Books, op: Op): (b': Books)
    requires b.Valid() && Can(b, op)
    ensures b'.Valid()
  {
    match op
    case DoConnect(k) => ConnectValid(b, k); b.(lists := b.lists[k := []])
    case DoNewClient(k) => NewClientValid(b, k); b.NewClient(k)
    case DoDestroyClient(c) => DestroyClientValid(b, c); b.DestroyClient(c)
    case DoSetThread(m, k) => SetThreadValid(b, m, k); b.SetThread(m, k)
    case DoEraseThread(m, k) => EraseThreadValid(b, m, k); b.EraseThread(m, k)
    case DoBreak(k) => BreakValid(b, k); Break(b, k)
  }

  const EMPTY := Books(map[], map[], map[], map[], 0, 0, map[])

  ghost predicate History(ops: seq<Op>, b: Books) {
    if ops == [] then b == EMPTY
    else exists a :: History(ops[..|ops| - 1], a) && a.Valid() && Can(a, ops[|ops| - 1]) && b == Do(a, ops[|ops| - 1])
  }

  /**
  After any history of connections, clients, map entries and disconnects, every
  callback ever registered is listed, or ran, or was removed, and no more than
  one of these; and no client or map entry refers to a connection that is gone.
  */
  lemma EveryHistoryIsAccounted(ops: seq<Op>, b: Books)
    requires History(ops, b)
    ensures b.Valid() && b.Fates()
    ensures forall c | c in b.clients && b.clients[c].conn.Some? :: b.clients[c].conn.value in b.lists
    ensures forall m, k | (m, k) in b.threads :: k in b.lists
  {
    HistoryValid(ops, b);
    forall c | c in b.clients && b.clients[c].conn.Some? ensures b.clients[c].conn.value in b.lists {
      assert b.ClientOk(c);
    }
    forall m, k | (m, k) in b.threads ensures k in b.lists {
      assert b.EntryOk(m, k);
    }
  }

  lemma HistoryValid(ops: seq<Op>, b: Books)
    requires History(ops, b)
    ensures b.Valid()
  {
    if ops != [] {
      var op := ops[|ops| - 1];
      var a :| History(ops[..|ops| - 1], a) && a.Valid() && Can(a, op) && b == Do(a, op);
    }
  }

  // ----- The object ---------------------------------------------------------------------------------

  class Registry {
    var lists: map<Conn, seq<NodeId>>
    var nodes: map<NodeId, Node>
    var clients: map<ClientId, Client>
    var threads: map<(MapId, Conn), ClientId>
    var nextNode: NodeId
    var nextClient: ClientId
    var fate: map<NodeId, Fate>

    ghost function View(): Books
      reads this
    {
      Books(lists, nodes, clients, threads, nextNode, nextClient, fate)
    }

    constructor ()
      ensures View() == EMPTY
    {
      lists, nodes, clients, threads, fate := map[], map[], map[], map[], map[];
      nextNode, nextClient := 0, 0;
    }

    method AddSyncCleanup(k: Conn, cb: Callback) returns (x: NodeId)
      requires k in lists
      modifies this`lists, this`nodes, this`nextNode
      ensures View() == old(View()).Add(k, cb) && x == old(nextNode)
    {
      x := nextNode;
      nextNode := nextNode + 1;
      nodes := nodes[x := Node(k, cb)];
      lists := lists[k := [x] + lists[k]];
    }

    method RemoveSyncCleanup(x: NodeId)
      requires x in nodes && nodes[x].conn in lists
      modifies this`lists, this`nodes, this`fate
      ensures View() == old(View()).Remove(x)
    {
      var k := nodes[x].conn;
      lists := lists[k := Without(lists[k], x)];
      nodes := nodes - {x};
      fate := fate[x := Removed];
    }

    method NewClient(k: Conn) returns (c: ClientId)
      requires k in lists
      modifies this`lists, this`nodes, this`nextNode, this`clients, this`nextClient
      ensures View() == old(View()).NewClient(k) && c == old(nextClient)
    {
      c := nextClient;
      nextClient := nextClient + 1;
      var x := AddSyncCleanup(k, Detach(c));
      clients := clients[c := Client(Some(k), x, None)];
    }

    method DestroyClient(c: ClientId)
      requires View().Lists() && c in clients && View().ClientOk(c)
      modifies this`lists, this`nodes, this`fate, this`clients
      ensures View() == old(View()).DestroyClient(c)
    {
      if clients[c].conn.Some? {
        RemoveSyncCleanup(clients[c].detach);
      }
      clients := clients - {c};
    }

    method SetThread(m: MapId, k: Conn) returns (c: ClientId, inserted: bool)
      requires View().Valid() && k in lists
      modifies this
      ensures View() == old(View()).SetThread(m, k) && View().Valid()
      ensures inserted == ((m, k) !in old(threads))
      ensures (m, k) in threads && c == threads[(m, k)]
    {
      SetThreadValid(View(), m, k);
      inserted := (m, k) !in threads;
      if inserted {
        c := InsertThread(m, k);
      } else {
        c := threads[(m, k)];
      }
    }

    /** A new entry: a client, and a second callback that erases the entry. */
    method InsertThread(m: MapId, k: Conn) returns (c: ClientId)
      requires k in lists && (m, k) !in threads
      modifies this
      ensures View() == old(View()).SetThread(m, k) && c == old(nextClient)
    {
      c := NewClient(k);
      threads := threads[(m, k) := c];
      var x := AddSyncCleanup(k, Forget(m));
      clients := clients[c := clients[c].(disconnectCb := Some(x))];
    }

    /** `~ProxyClient<Thread>` followed by `~ProxyClientBase`, when an entry is taken out of its map. */
    method EraseThread(m: MapId, k: Conn)
      requires View().Valid()
      modifies this
      ensures View() == old(View()).EraseThread(m, k)
    {
      if (m, k) in threads {
        var c := threads[(m, k)];
        assert View().EntryOk(m, k) && View().ClientOk(c);
        threads := threads - {(m, k)};
        RemoveSyncCleanup(clients[c].disconnectCb.value);
        RemoveSyncCleanup(clients[c].detach);
        clients := clients - {c};
      }
    }

    /** The callback at the front of the list, spliced off and called. */
    method RunFront(k: Conn)
      requires View().Valid() && k in lists && lists[k] != []
      modifies this
      ensures View() == old(View()).RunFront(k)
    {
      assert View().ListOk(k) && lists[k][0] in lists[k] && View().NodeOk(lists[k][0]);
      var x := lists[k][0];
      var cb := nodes[x].cb;
      lists := lists[k := lists[k][1..]];
      nodes := nodes - {x};
      fate := fate[x := Ran];
      match cb
      case Detach(c) =>
        clients := clients[c := clients[c].(conn := None)];
      case Forget(m) =>
        assert old(View()).EntryOk(m, k) && old(View()).ClientOk(threads[(m, k)]);
        var c := threads[(m, k)];
        threads := threads - {(m, k)};
        RemoveSyncCleanup(clients[c].detach);
        clients := clients - {c};
    }

    /** `~Connection`: the loop ends although a callback may take others off the list. */
    method DestroyConnection(k: Conn)
      requires View().Valid() && k in lists
      modifies this
      ensures View() == Break(old(View()), k) && View().Valid() && k !in lists
      ensures Broken(old(View()), View(), k)
    {
      ghost var before := View();
      while lists[k] != []
        invariant View().Valid() && k in lists
        invariant Drain(View(), k) == Drain(before, k)
        decreases |lists[k]|
      {
        RunFrontValid(View(), k);
        RunFront(k);
      }
      lists := lists - {k};
      BreakValid(before, k);
    }
  }
}
