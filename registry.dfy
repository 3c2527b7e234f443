/**
 * `ServerManagementService`: the in-memory registry of player-created servers, kept in step with
 * the proxy's routing table and the `minehub_servers` table. The Java methods run on a thread
 * pool and hand back futures; here each call runs to completion, and its boolean or list is
 * the value the future completes with.
 */
module Registry {
  import opened Wrappers
  import opened JavaText
  import opened Models
  import opened Ping
  import opened Proxy
  import opened Store

  /** `addServer` probes the new server with a 3-second connect timeout. */
  const AddPingTimeoutMs := 3000

  /**
   * How `loadServersFromDatabase` ended: every row loaded, the query's `SQLException` caught,
   * or an `IllegalArgumentException` at a row, which escapes the method: the row's port admits no
   * socket address, or the proxy already routes its name to another address.
   */
  datatype LoadOutcome = Loaded | LoadFailed | LoadAborted(name: string)

  /** The socket address a stored server is registered with. */
  function EndpointOf(s: Server): Endpoint {
    Endpoint(s.host, s.port)
  }

  /** The proxy entries that register every server of `t` under its name. */
  ghost function Routes(t: map<string, Server>): map<string, Endpoint> {
    map k | k in t :: EndpointOf(t[k])
  }

  lemma RoutesStore(t: map<string, Server>, s: Server)
    ensures Routes(t[s.name := s]) == Routes(t)[s.name := EndpointOf(s)]
  {
  }

  /** Storing a row over a merged table is storing it in the right-hand table. */
  lemma MergeStore<V>(base: map<string, V>, t: map<string, V>, k: string, v: V)
    ensures (base + t)[k := v] == base + t[k := v]
  {
  }

  /** Dropping a set of keys and then one more is dropping them all at once. */
  lemma DropStep<V>(m: map<string, V>, gone: set<string>, k: string)
    ensures m - gone - {k} == m - (gone + {k})
  {
  }

  /**
   * A stored row the load gets past: its port makes a socket address, and the proxy does not
   * already route its name to another address.
   */
  ghost predicate Loadable(routes: map<string, Endpoint>, s: Server) {
    PortInRange(s.port) && (s.name !in routes || routes[s.name] == EndpointOf(s))
  }

  /** When every listed row can be loaded, so can every row of the table the list enumerates. */
  lemma EnumeratedLoadable(rows: seq<Server>, t: map<string, Server>, routes: map<string, Endpoint>)
    requires Enumerates(rows, t)
    requires forall j :: 0 <= j < |rows| ==> Loadable(routes, rows[j])
    ensures forall k :: k in t ==> Loadable(routes, t[k])
  {
    forall k | k in t
      ensures Loadable(routes, t[k])
    {
      EnumeratedNames(rows, t);
      var r :| r in rows && r.name == k;
      var j :| 0 <= j < |rows| && rows[j] == r;
    }
  }

  /** The record `addServer` builds: a new `ServerInfo` whose online flag is the probe's answer. */
  function Probed(name: string, host: string, port: Int32, ownerUuid: Uuid, ownerName: string, now: int,
                  connect: Connector): Server
  {
    NewServer(name, host, port, ownerUuid, ownerName, now).(online := PingServer(host, port, AddPingTimeoutMs, connect))
  }

  /** `isServerOnline`: an unknown name counts as offline. */
  function OnlineIn(m: map<string, Server>, name: string): (r: bool)
    ensures r ==> name in m
    ensures name in m ==> r == m[name].online
  {
    match Get(m, name)
    case Some(s) => s.online
    case None => false
  }

  /**
   * Everything the registry's operations act on: its own map, the proxy's routes, and the
   * database's reachability and two tables.
   */
  datatype Stores = Stores(managed: map<string, Server>, routes: map<string, Endpoint>, reachable: bool,
                           rows: map<string, Server>, players: map<Uuid, PlayerRow>)

  /** Each row of the list is the table's row of that name. */
  ghost predicate RowsOf(list: seq<Server>, t: map<string, Server>) {
    forall i :: 0 <= i < |list| ==> list[i].name in t && t[list[i].name] == list[i]
  }

  /** Storing some of a table's rows under their names gives a part of that table, made of listed rows. */
  lemma {:induction false} TabulatePart(list: seq<Server>, t: map<string, Server>)
    requires RowsOf(list, t)
    ensures forall k :: k in Tabulate(list) ==> k in t && Tabulate(list)[k] == t[k] && Tabulate(list)[k] in list
    decreases |list|
  {
    if list != [] {
      var init := list[..|list| - 1];
      assert RowsOf(init, t) by {
        forall i | 0 <= i < |init| ensures init[i].name in t && t[init[i].name] == init[i] {
          assert init[i] == list[i];
        }
      }
      TabulatePart(init, t);
      forall r | r in init ensures r in list {
        var i :| 0 <= i < |init| && init[i] == r;
        assert list[i] == r;
      }
    }
  }

  /** Every listed row's name is a key of the tabulated list. */
  lemma {:induction false} TabulateHasNames(list: seq<Server>)
    ensures forall j :: 0 <= j < |list| ==> list[j].name in Tabulate(list)
    decreases |list|
  {
    if list != [] {
      var init := list[..|list| - 1];
      TabulateHasNames(init);
      forall j | 0 <= j < |list| - 1 ensures list[j].name in Tabulate(list) {
        assert list[j] == init[j];
      }
    }
  }

  /** Every key of a tabulated list is the name of one of its rows. */
  lemma {:induction false} TabulateKeys(list: seq<Server>)
    ensures forall k :: k in Tabulate(list) ==> exists j :: 0 <= j < |list| && list[j].name == k
    decreases |list|
  {
    if list != [] {
      var init := list[..|list| - 1];
      TabulateKeys(init);
      forall k | k in Tabulate(list)
        ensures exists j :: 0 <= j < |list| && list[j].name == k
      {
        if k != list[|list| - 1].name {
          assert Tabulate(list) == Tabulate(init)[list[|list| - 1].name := list[|list| - 1]];
          var j :| 0 <= j < |init| && init[j].name == k;
          assert list[j] == init[j];
        }
      }
    }
  }

  /** In a listing with distinct names, the next row's name is not among those loaded before it. */
  lemma NextNameFresh(rows: seq<Server>, i: nat)
    requires forall a, b :: 0 <= a < b < |rows| ==> rows[a].name != rows[b].name
    requires i < |rows|
    ensures rows[i].name !in Tabulate(rows[..i])
  {
    TabulateKeys(rows[..i]);
    forall j | 0 <= j < i
      ensures rows[..i][j].name != rows[i].name
    {
      assert rows[..i][j] == rows[j];
    }
  }

  /** The rows strictly newer than row `i` of a newest-first enumeration all come before it. */
  lemma NewerRowsLoaded(rows: seq<Server>, i: nat, t: map<string, Server>, routes: map<string, Endpoint>)
    requires Enumerates(rows, t) && SortedByCreatedDesc(rows) && i < |rows|
    requires forall j :: 0 <= j < i ==> Loadable(routes, rows[j])
    ensures forall k :: k in t && t[k].createdAt > rows[i].createdAt ==>
              k in Tabulate(rows[..i]) && Loadable(routes, t[k])
  {
    EnumeratedNames(rows, t);
    TabulateHasNames(rows[..i]);
    forall k | k in t && t[k].createdAt > rows[i].createdAt
      ensures k in Tabulate(rows[..i]) && Loadable(routes, t[k])
    {
      var r :| r in rows && r.name == k;
      var j :| 0 <= j < |rows| && rows[j] == r;
      assert j < i;
      assert rows[..i][j] == rows[j];
    }
  }

  /**
   * A load stopped at row `i` of the newest-first listing, all of whose earlier rows were
   * loadable, has stored rows of the table only, none of them the stopping row's name, and none
   * older than it; and every row strictly newer than the stopping row was stored and loadable.
   */
  lemma AbortedLoad(rows: seq<Server>, i: nat, t: map<string, Server>, routes: map<string, Endpoint>)
    requires Enumerates(rows, t) && SortedByCreatedDesc(rows) && i < |rows|
    requires forall j :: 0 <= j < i ==> Loadable(routes, rows[j])
    ensures rows[i].name in t && t[rows[i].name] == rows[i]
    ensures rows[i].name !in Tabulate(rows[..i])
    ensures forall k :: k in Tabulate(rows[..i]) ==>
              k in t && Tabulate(rows[..i])[k] == t[k] && Tabulate(rows[..i])[k].createdAt >= rows[i].createdAt
    ensures forall k :: k in t && t[k].createdAt > rows[i].createdAt ==>
              k in Tabulate(rows[..i]) && Loadable(routes, t[k])
  {
    NewerRowsLoaded(rows, i, t, routes);
    var prefix := rows[..i];
    assert RowsOf(prefix, t) by {
      forall j | 0 <= j < |prefix| ensures prefix[j].name in t && t[prefix[j].name] == prefix[j] {
        assert prefix[j] == rows[j];
      }
    }
    TabulatePart(prefix, t);
    forall k | k in Tabulate(prefix)
      ensures k != rows[i].name && Tabulate(prefix)[k].createdAt >= rows[i].createdAt
    {
      var j :| 0 <= j < |prefix| && prefix[j] == Tabulate(prefix)[k];
      assert rows[j] == prefix[j] && rows[j].name == k;
    }
  }

  class ServerManagementService {
    const proxy: RoutingTable
    const db: Database
    var managed: map<string, Server>

    ghost predicate Valid()
      reads this, db
    {
      KeyedByName(managed) && db.Valid()
    }

    function Snapshot(): Stores
      reads this, proxy, db
    {
      Stores(managed, proxy.servers, db.reachable, db.servers, db.players)
    }

    constructor (proxy: RoutingTable, db: Database)
      requires db.Valid()
      ensures Valid() && this.proxy == proxy && this.db == db && managed == map[]
    {
      this.proxy := proxy;
      this.db := db;
      managed := map[];
    }

    /**
     * `addServer`. A name the proxy already routes is refused before anything is touched. Then
     * the server is probed and inserted into the table (with `is_online` at its FALSE default);
     * an insert failure changes nothing. A port outside 0..65535 then fails the socket address
     * AFTER the insert, so the row stays behind. Otherwise the proxy routes the name to
     * `host:port` and the registry keeps the probed record.
     */
    method AddServer(name: string, host: string, port: Int32, ownerUuid: Uuid, ownerName: string, now: int,
                     connect: Connector) returns (added: bool)
      requires Valid()
      modifies this, proxy, db
      ensures Valid() && db.reachable == old(db.reachable) && db.players == old(db.players)
      ensures added <==> name !in old(proxy.servers) && old(db.reachable) && name !in old(db.servers) && PortInRange(port)
      ensures name in old(proxy.servers) || !old(db.reachable) || name in old(db.servers) ==>
                db.servers == old(db.servers)
      ensures name !in old(proxy.servers) && old(db.reachable) && name !in old(db.servers) ==>
                db.servers == old(db.servers)[name := InsertedRow(Probed(name, host, port, ownerUuid, ownerName, now, connect), now)]
      ensures !added ==> proxy.servers == old(proxy.servers) && managed == old(managed)
      ensures added ==> proxy.servers == old(proxy.servers)[name := Endpoint(host, port)]
      ensures added ==> managed == old(managed)[name := Probed(name, host, port, ownerUuid, ownerName, now, connect)]
      ensures added ==> OwnedCount(db.servers, ownerUuid) == OwnedCount(old(db.servers), ownerUuid) + 1
    {
      if name in proxy.servers {
        return false;
      }
      var info := new ServerInfo(name, host, port, ownerUuid, ownerName, now);
      info.SetOnline(PingServer(host, port, AddPingTimeoutMs, connect));
      var st := db.AddServer(info.Value(), now);
      if st.Failed? {
        return false;
      }
      CountAfterInsert(old(db.servers), InsertedRow(info.Value(), now), ownerUuid);
      if !PortInRange(port) {
        return false;
      }
      var registered := proxy.RegisterServer(name, Endpoint(host, port));
      managed := managed[name := info.Value()];
      added := true;
    }

    /**
     * `removeServer`: the proxy forgets the name first; then the row is deleted and the registry
     * drops the name. When the delete fails the proxy entry is already gone and the result is
     * false; otherwise the result is true, whether or not the name was known.
     */
    method RemoveServer(name: string) returns (removed: bool)
      requires Valid()
      modifies this, proxy, db
      ensures Valid() && db.reachable == old(db.reachable) && db.players == old(db.players)
      ensures proxy.servers == old(proxy.servers) - {name}
      ensures removed == old(db.reachable)
      ensures removed ==> db.servers == old(db.servers) - {name} && managed == old(managed) - {name}
      ensures !removed ==> db.servers == old(db.servers) && managed == old(managed)
    {
      if name in proxy.servers {
        proxy.UnregisterServer(name);
      }
      var st := db.RemoveServer(name);
      if st.Failed? {
        return false;
      }
      managed := managed - {name};
      removed := true;
    }

    /**
     * `loadServersFromDatabase`: every stored server, newest first, is routed by the proxy and
     * kept in the registry (over any record of the same name). A failed query changes nothing;
     * the first row that cannot be loaded stops the load there, after every newer row.
     */
    method LoadServersFromDatabase() returns (outcome: LoadOutcome, ghost loaded: map<string, Server>)
      requires Valid()
      modifies this, proxy
      ensures Valid()
      ensures !db.reachable ==> outcome == LoadFailed && managed == old(managed) && proxy.servers == old(proxy.servers)
      ensures outcome == Loaded <==> db.reachable && forall k :: k in db.servers ==> Loadable(old(proxy.servers), db.servers[k])
      ensures outcome == Loaded ==>
                managed == old(managed) + db.servers && proxy.servers == old(proxy.servers) + Routes(db.servers)
      ensures outcome.LoadAborted? ==>
                && outcome.name in db.servers && !Loadable(old(proxy.servers), db.servers[outcome.name])
                && managed == old(managed) + loaded && proxy.servers == old(proxy.servers) + Routes(loaded)
                && outcome.name !in loaded
                && (forall k :: k in loaded ==>
                      && k in db.servers && loaded[k] == db.servers[k]
                      && loaded[k].createdAt >= db.servers[outcome.name].createdAt)
                && forall k :: k in db.servers && db.servers[k].createdAt > db.servers[outcome.name].createdAt ==>
                     k in loaded && Loadable(old(proxy.servers), db.servers[k])
    {
      var q := db.GetAllServers();
      if q.QueryFailed? {
        return LoadFailed, map[];
      }
      var rows := q.value;
      ghost var routes0 := proxy.servers;
      var stopped, n := LoadRows(rows);
      if stopped {
        AbortedLoad(rows, n, db.servers, routes0);
        loaded := Tabulate(rows[..n]);
        return LoadAborted(rows[n].name), loaded;
      }
      assert rows[..|rows|] == rows;
      TabulateEnumeration(rows, db.servers);
      EnumeratedLoadable(rows, db.servers, routes0);
      outcome, loaded := Loaded, db.servers;
    }

    /**
     * The loop of `loadServersFromDatabase` over the newest-first listing: rows are routed and
     * kept one by one, and the first row that cannot be loaded stops it. `n` rows were loaded.
     */
    method LoadRows(rows: seq<Server>) returns (stopped: bool, n: nat)
      requires KeyedByName(managed)
      requires forall a, b :: 0 <= a < b < |rows| ==> rows[a].name != rows[b].name
      modifies this, proxy
      ensures KeyedByName(managed) && n <= |rows|
      ensures managed == old(managed) + Tabulate(rows[..n])
      ensures proxy.servers == old(proxy.servers) + Routes(Tabulate(rows[..n]))
      ensures forall j :: 0 <= j < n ==> Loadable(old(proxy.servers), rows[j])
      ensures stopped ==> n < |rows| && !Loadable(old(proxy.servers), rows[n])
      ensures !stopped ==> n == |rows|
    {
      ghost var managed0 := managed;
      ghost var routes0 := proxy.servers;
      for i := 0 to |rows|
        invariant KeyedByName(managed)
        invariant managed == managed0 + Tabulate(rows[..i])
        invariant proxy.servers == routes0 + Routes(Tabulate(rows[..i]))
        invariant forall j :: 0 <= j < i ==> Loadable(routes0, rows[j])
      {
        var s := rows[i];
        NextNameFresh(rows, i);
        var accepted := false;
        if PortInRange(s.port) {
          accepted := Install(s, managed0, routes0, Tabulate(rows[..i]));
        }
        if !accepted {
          return true, i;
        }
        assert Loadable(routes0, rows[i]);
        assert rows[..i + 1][..i] == rows[..i];
        assert Tabulate(rows[..i + 1]) == Tabulate(rows[..i])[s.name := s];
      }
      stopped, n := false, |rows|;
    }

    /**
     * One row of the load: the proxy routes it and the registry keeps it, unless the proxy
     * already routes the name elsewhere, which refuses the row before the registry sees it.
     */
    method Install(s: Server, ghost managed0: map<string, Server>, ghost routes0: map<string, Endpoint>,
                   ghost loaded: map<string, Server>) returns (accepted: bool)
      requires KeyedByName(managed) && managed == managed0 + loaded && proxy.servers == routes0 + Routes(loaded)
      requires s.name !in loaded
      modifies this, proxy
      ensures accepted <==> s.name !in routes0 || routes0[s.name] == EndpointOf(s)
      ensures !accepted ==> managed == old(managed) && proxy.servers == old(proxy.servers)
      ensures accepted ==> KeyedByName(managed) && managed == managed0 + loaded[s.name := s]
      ensures accepted ==> proxy.servers == routes0 + Routes(loaded[s.name := s])
    {
      RoutesStore(loaded, s);
      MergeStore(managed0, loaded, s.name, s);
      MergeStore(routes0, Routes(loaded), s.name, EndpointOf(s));
      accepted := proxy.RegisterServer(s.name, EndpointOf(s));
      if accepted {
        managed := managed[s.name := s];
      }
    }

    /**
     * `cleanupOfflineServers`: every server whose row was last seen more than `hoursOffline`
     * hours before `now` is removed from the proxy, the table and the registry; a failed query
     * changes nothing.
     */
    method CleanupOfflineServers(hoursOffline: int, now: int)
      requires Valid()
      modifies this, proxy, db
      ensures Valid() && db.reachable == old(db.reachable) && db.players == old(db.players)
      ensures !old(db.reachable) ==>
                managed == old(managed) && proxy.servers == old(proxy.servers) && db.servers == old(db.servers)
      ensures old(db.reachable) ==>
                var gone := StaleRows(old(db.servers), StaleCutoff(now, hoursOffline)).Keys;
                && managed == old(managed) - gone
                && proxy.servers == old(proxy.servers) - gone
                && db.servers == old(db.servers) - gone
    {
      var q := db.GetOfflineServers(hoursOffline, now);
      if q.QueryFailed? {
        return;
      }
      var stale := q.value;
      ghost var managed0 := managed;
      ghost var routes0 := proxy.servers;
      ghost var rows0 := db.servers;
      EnumeratedNames(stale, StaleRows(rows0, StaleCutoff(now, hoursOffline)));
      for i := 0 to |stale|
        invariant Valid() && db.reachable && db.players == old(db.players)
        invariant managed == managed0 - Names(stale[..i])
        invariant proxy.servers == routes0 - Names(stale[..i])
        invariant db.servers == rows0 - Names(stale[..i])
      {
        var removed := RemoveServer(stale[i].name);
        assert stale[..i + 1] == stale[..i] + [stale[i]];
        NamesAppend(stale[..i], stale[i]);
        DropStep(managed0, Names(stale[..i]), stale[i].name);
        DropStep(routes0, Names(stale[..i]), stale[i].name);
        DropStep(rows0, Names(stale[..i]), stale[i].name);
      }
      assert stale[..|stale|] == stale;
    }

    /**
     * `updateAllServerStatuses`, which the cleanup task calls but which has no definition in the
     * repository. Its effect is left open: afterwards the stores are whatever `after` holds,
     * with only the table's UNIQUE names and the registry's keying kept.
     */
    method UpdateAllServerStatuses(after: Stores)
      requires KeyedByName(after.managed) && KeyedByName(after.rows)
      modifies this, proxy, db
      ensures Valid() && Snapshot() == after
    {
      managed := after.managed;
      proxy.servers := after.routes;
      db.reachable := after.reachable;
      db.servers := after.rows;
      db.players := after.players;
    }

    function IsServerOnline(name: string): (r: bool)
      reads this
      ensures r <==> OnlineIn(managed, name)
    {
      OnlineIn(managed, name)
    }

    /** `getServerInfo`: the record kept under `name`, if any; it carries that name. */
    function GetServerInfo(name: string): (r: Option<Server>)
      requires Valid()
      reads this, db
      ensures r.Some? <==> name in managed
      ensures r.Some? ==> r.value == managed[name] && r.value.name == name
    {
      Get(managed, name)
    }

    /** `getAllManagedServers`: a snapshot of every record, each once, in no particular order. */
    method GetAllManagedServers() returns (list: seq<Server>)
      requires Valid()
      ensures Enumerates(list, managed)
      ensures |list| == |managed|
    {
      list := ListRows(managed);
      EnumerationSize(list, managed);
    }

    /** `getServerCountByOwner`: the owner's stored servers; 0 when the count query fails. */
    method GetServerCountByOwner(ownerUuid: Uuid) returns (count: int)
      ensures db.reachable ==> count == OwnedCount(db.servers, ownerUuid)
      ensures !db.reachable ==> count == 0
    {
      var q := db.GetServerCountByOwner(ownerUuid);
      match q
      case Rows(n) => count := n;
      case QueryFailed(_) => count := 0;
    }
  }
}
