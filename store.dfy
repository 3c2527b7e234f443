/**
 * `DatabaseManager`: what each SQL statement does to the two MySQL tables. `minehub_servers` is a
 * map from the UNIQUE `name` column to the row; `minehub_players` a map from the `uuid` primary
 * key. `now` stands for `CURRENT_TIMESTAMP` / `NOW()`, in seconds. A database that cannot hand
 * out a connection (`reachable == false`) makes every statement throw `SQLException`.
 */
module Store {
  import opened Wrappers
  import opened JavaText
  import opened Models

  datatype SqlError = Unreachable | DuplicateName

  /** How an update statement ended: done, or an `SQLException`. */
  datatype Status = Done | Failed(error: SqlError)

  /** How a query ended: its rows, or an `SQLException`. */
  datatype Query<T> = Rows(value: T) | QueryFailed(error: SqlError)

  /** A row of `minehub_players`; `last_server` may be any text. */
  datatype PlayerRow = PlayerRow(username: string, firstJoin: int, lastJoin: int, lastServer: string, joinCount: int)

  const SecondsPerHour := 3600

  /**
   * The row that `addServer(info)` writes. Its column list leaves out `is_online`, `created_at`
   * and `last_seen`, so those take the schema defaults FALSE, CURRENT_TIMESTAMP, CURRENT_TIMESTAMP.
   */
  function InsertedRow(info: Server, now: int): (r: Server)
    ensures !r.online && r.createdAt == now && r.lastSeen == now
    ensures r.(online := info.online, createdAt := info.createdAt, lastSeen := info.lastSeen) == info
  {
    info.(online := false, createdAt := now, lastSeen := now)
  }

  /** `UPDATE ... SET is_online = ?, last_seen = CURRENT_TIMESTAMP WHERE name = ?`. */
  function WithStatus(t: map<string, Server>, name: string, online: bool, now: int): (r: map<string, Server>)
    ensures r.Keys == t.Keys
    ensures forall k :: k in t && k != name ==> r[k] == t[k]
    ensures name in t ==> r[name] == t[name].(online := online, lastSeen := now)
    ensures KeyedByName(t) ==> KeyedByName(r)
  {
    if name in t then t[name := t[name].(online := online, lastSeen := now)] else t
  }

  /** The bound in `WHERE last_seen < (NOW() - INTERVAL hours HOUR)`. */
  function StaleCutoff(now: int, hours: int): int {
    now - hours * SecondsPerHour
  }

  /** The rows of `t` that the staleness filter selects: last seen strictly before `cutoff`. */
  function StaleRows(t: map<string, Server>, cutoff: int): (r: map<string, Server>)
    ensures KeyedByName(t) ==> KeyedByName(r)
  {
    map k | k in t && t[k].lastSeen < cutoff :: t[k]
  }

  /** A subset has no more elements than its superset. */
  lemma {:induction false} SubsetNoLarger(a: set<string>, b: set<string>)
    requires a <= b
    ensures |a| <= |b|
    decreases |b|
  {
    if b != {} {
      var x :| x in b;
      SubsetNoLarger(a - {x}, b - {x});
    }
  }

  /** The names of the rows that `owner` owns. */
  function OwnedNames(t: map<string, Server>, owner: Uuid): set<string> {
    set k | k in t && t[k].ownerUuid == owner
  }

  /** The owned names are some of the table's names, and there are none exactly when no row has that owner. */
  lemma OwnedNamesBounds(t: map<string, Server>, owner: Uuid)
    ensures |OwnedNames(t, owner)| <= |t|
    ensures |OwnedNames(t, owner)| == 0 <==> forall k :: k in t ==> t[k].ownerUuid != owner
  {
    SubsetNoLarger(OwnedNames(t, owner), t.Keys);
    if k :| k in t && t[k].ownerUuid == owner {
      assert k in OwnedNames(t, owner);
    }
  }

  /** `SELECT COUNT(*) FROM minehub_servers WHERE owner_uuid = ?`. */
  function OwnedCount(t: map<string, Server>, owner: Uuid): (r: nat)
    ensures r == 0 <==> forall k :: k in t ==> t[k].ownerUuid != owner
    ensures r <= |t|
  {
    OwnedNamesBounds(t, owner);
    |OwnedNames(t, owner)|
  }

  /** The server names a list of rows mentions. */
  ghost function Names(list: seq<Server>): set<string> {
    set r | r in list :: r.name
  }

  lemma NamesAppend(list: seq<Server>, r: Server)
    ensures Names(list + [r]) == Names(list) + {r.name}
  {
    var l := list + [r];
    assert forall x :: x in l <==> x in list || x == r;
  }

  /** `list` holds every row of `t` exactly once: the shape of a result set read to its end. */
  ghost predicate Enumerates(list: seq<Server>, t: map<string, Server>) {
    && (forall i :: 0 <= i < |list| ==> list[i].name in t && t[list[i].name] == list[i])
    && (forall i, j :: 0 <= i < j < |list| ==> list[i].name != list[j].name)
    && t.Keys <= Names(list)
  }

  ghost predicate SortedByCreatedDesc(list: seq<Server>) {
    forall i, j :: 0 <= i < j < |list| ==> list[i].createdAt >= list[j].createdAt
  }

  /** The INSERT half of the player upsert, or its ON DUPLICATE KEY UPDATE half. */
  function Upserted(existing: Option<PlayerRow>, username: string, lastServer: string, now: int): (p: PlayerRow)
    ensures p.username == username && p.lastServer == lastServer && p.lastJoin == now
    ensures existing.None? ==> p.joinCount == 1 && p.firstJoin == now
    ensures existing.Some? ==> p.joinCount == existing.value.joinCount + 1 && p.firstJoin == existing.value.firstJoin
  {
    match existing
    case None => PlayerRow(username, now, now, lastServer, 1)
    case Some(e) => e.(username := username, lastServer := lastServer, lastJoin := now, joinCount := e.joinCount + 1)
  }

  /** One call of `updatePlayerData`: who joined, from which server, and when. */
  datatype Visit = Visit(username: string, lastServer: string, at: int)

  /** The player's row after a run of `updatePlayerData` calls, in order. */
  function Replay(existing: Option<PlayerRow>, visits: seq<Visit>): Option<PlayerRow>
    decreases |visits|
  {
    if visits == [] then existing
    else
      var v := visits[|visits| - 1];
      Some(Upserted(Replay(existing, visits[..|visits| - 1]), v.username, v.lastServer, v.at))
  }

  /**
   * Starting from no row, `n` calls leave `join_count == n`, `first_join` at the first call and
   * the name, server and time of the last call.
   */
  lemma {:induction false} ReplayCountsJoins(visits: seq<Visit>)
    requires |visits| >= 1
    ensures Replay(None, visits).Some?
    ensures Replay(None, visits).value.joinCount == |visits|
    ensures Replay(None, visits).value.firstJoin == visits[0].at
    ensures Replay(None, visits).value.username == visits[|visits| - 1].username
    ensures Replay(None, visits).value.lastServer == visits[|visits| - 1].lastServer
    ensures Replay(None, visits).value.lastJoin == visits[|visits| - 1].at
  {
    if |visits| > 1 {
      var init := visits[..|visits| - 1];
      ReplayCountsJoins(init);
      assert init[0] == visits[0];
    }
  }

  /** Dropping the last row of an enumeration enumerates the table without that row. */
  lemma EnumerationInit(list: seq<Server>, t: map<string, Server>)
    requires Enumerates(list, t) && list != []
    ensures list[|list| - 1].name in t && t[list[|list| - 1].name] == list[|list| - 1]
    ensures Enumerates(list[..|list| - 1], t - {list[|list| - 1].name})
  {
    var n := |list| - 1;
    var last := list[n];
    var init := list[..n];
    var rest := t - {last.name};
    forall i | 0 <= i < |init|
      ensures init[i].name in rest && rest[init[i].name] == init[i]
    {
      assert init[i] == list[i] && list[i].name != list[n].name;
    }
    forall i, j | 0 <= i < j < |init|
      ensures init[i].name != init[j].name
    {
      assert init[i] == list[i] && init[j] == list[j];
    }
    forall k | k in rest
      ensures k in Names(init)
    {
      var r :| r in list && r.name == k;
      var i :| 0 <= i < |list| && list[i] == r;
      assert i != n && init[i] == r;
    }
  }

  /** A list that holds every row once is as long as the table. */
  lemma {:induction false} EnumerationSize(list: seq<Server>, t: map<string, Server>)
    requires Enumerates(list, t)
    ensures |list| == |t|
    decreases |list|
  {
    if list == [] {
      assert Names(list) == {};
      assert t.Keys == {};
    } else {
      var last := list[|list| - 1];
      EnumerationInit(list, t);
      EnumerationSize(list[..|list| - 1], t - {last.name});
      assert t.Keys == (t - {last.name}).Keys + {last.name};
    }
  }

  /** The names an enumeration mentions are exactly the table's keys. */
  lemma EnumeratedNames(list: seq<Server>, t: map<string, Server>)
    requires Enumerates(list, t)
    ensures Names(list) == t.Keys
  {
    forall k | k in Names(list) ensures k in t {
      var r :| r in list && r.name == k;
      var i :| 0 <= i < |list| && list[i] == r;
    }
  }

  /** The table a list of rows builds when each is stored under its name, later rows winning. */
  function Tabulate(list: seq<Server>): (r: map<string, Server>)
    ensures KeyedByName(r)
    decreases |list|
  {
    if list == [] then map[]
    else Tabulate(list[..|list| - 1])[list[|list| - 1].name := list[|list| - 1]]
  }

  /** Storing an enumeration of a table row by row rebuilds that table. */
  lemma {:induction false} TabulateEnumeration(list: seq<Server>, t: map<string, Server>)
    requires Enumerates(list, t)
    ensures Tabulate(list) == t
    decreases |list|
  {
    if list == [] {
      assert Names(list) == {};
      assert t.Keys == {};
    } else {
      var last := list[|list| - 1];
      EnumerationInit(list, t);
      TabulateEnumeration(list[..|list| - 1], t - {last.name});
      assert (t - {last.name})[last.name := last] == t;
    }
  }

  /** A result set read to its end: every row of `t` once, in no particular order. */
  method ListRows(t: map<string, Server>) returns (list: seq<Server>)
    requires KeyedByName(t)
    ensures Enumerates(list, t)
  {
    list := [];
    var remaining := t.Keys;
    while remaining != {}
      invariant remaining <= t.Keys
      invariant forall i :: 0 <= i < |list| ==>
                  list[i].name in t && t[list[i].name] == list[i] && list[i].name !in remaining
      invariant forall i, j :: 0 <= i < j < |list| ==> list[i].name != list[j].name
      invariant t.Keys - remaining <= Names(list)
      decreases remaining
    {
      var k :| k in remaining;
      NamesAppend(list, t[k]);
      list := list + [t[k]];
      remaining := remaining - {k};
    }
  }

  /** Adding a new row for `owner` raises the owner's count by one; any other owner's stays. */
  lemma {:induction false} CountAfterInsert(t: map<string, Server>, r: Server, owner: Uuid)
    requires r.name !in t
    ensures OwnedCount(t[r.name := r], owner) == OwnedCount(t, owner) + (if r.ownerUuid == owner then 1 else 0)
  {
    var before := OwnedNames(t, owner);
    var after := OwnedNames(t[r.name := r], owner);
    if r.ownerUuid == owner {
      assert after == before + {r.name};
    } else {
      assert after == before;
    }
  }

  /** Deleting a row lowers its owner's count by one, and only if the row was there. */
  lemma {:induction false} CountAfterDelete(t: map<string, Server>, name: string, owner: Uuid)
    ensures OwnedCount(t - {name}, owner)
         == OwnedCount(t, owner) - (if name in t && t[name].ownerUuid == owner then 1 else 0)
  {
    var before := OwnedNames(t, owner);
    var after := OwnedNames(t - {name}, owner);
    if name in t && t[name].ownerUuid == owner {
      assert after == before - {name};
    } else {
      assert after == before;
    }
  }

  /** A non-empty set of rows has a newest one, by `created_at`. */
  lemma {:induction false} NewestExists(keys: set<string>, t: map<string, Server>)
    requires keys != {} && keys <= t.Keys
    ensures exists k :: k in keys && forall k' :: k' in keys ==> t[k'].createdAt <= t[k].createdAt
    decreases keys
  {
    var x :| x in keys;
    if keys != {x} {
      NewestExists(keys - {x}, t);
      var y :| y in keys - {x} && forall k' :: k' in keys - {x} ==> t[k'].createdAt <= t[y].createdAt;
      if t[x].createdAt > t[y].createdAt {
        assert forall k' :: k' in keys ==> t[k'].createdAt <= t[x].createdAt;
      } else {
        assert forall k' :: k' in keys ==> t[k'].createdAt <= t[y].createdAt;
      }
    } else {
      assert forall k' :: k' in keys ==> k' == x;
    }
  }

  class Database {
    var reachable: bool
    var servers: map<string, Server>
    var players: map<Uuid, PlayerRow>

    /** The UNIQUE `name` column: each row is filed under its own name. */
    ghost predicate Valid()
      reads this
    {
      KeyedByName(servers)
    }

    /** A database whose tables (created if missing, so possibly empty) hold the given rows. */
    constructor (reachable: bool, servers: map<string, Server>, players: map<Uuid, PlayerRow>)
      requires KeyedByName(servers)
      ensures Valid()
      ensures this.reachable == reachable && this.servers == servers && this.players == players
    {
      this.reachable := reachable;
      this.servers := servers;
      this.players := players;
    }

    /** `INSERT INTO minehub_servers (name, host, port, owner_uuid, owner_name, description, max_players, version)`. */
    method AddServer(info: Server, now: int) returns (st: Status)
      requires Valid()
      modifies this
      ensures Valid() && reachable == old(reachable) && players == old(players)
      ensures !old(reachable) ==> st == Failed(Unreachable) && servers == old(servers)
      ensures old(reachable) && info.name in old(servers) ==> st == Failed(DuplicateName) && servers == old(servers)
      ensures old(reachable) && info.name !in old(servers) ==>
                st == Done && servers == old(servers)[info.name := InsertedRow(info, now)]
    {
      if !reachable {
        return Failed(Unreachable);
      }
      if info.name in servers {
        return Failed(DuplicateName);
      }
      servers := servers[info.name := InsertedRow(info, now)];
      st := Done;
    }

    /** `DELETE FROM minehub_servers WHERE name = ?`: no error when there is no such row. */
    method RemoveServer(name: string) returns (st: Status)
      requires Valid()
      modifies this
      ensures Valid() && reachable == old(reachable) && players == old(players)
      ensures !old(reachable) ==> st == Failed(Unreachable) && servers == old(servers)
      ensures old(reachable) ==> st == Done && servers == old(servers) - {name}
    {
      if !reachable {
        return Failed(Unreachable);
      }
      servers := servers - {name};
      st := Done;
    }

    /** `UPDATE minehub_servers SET is_online = ?, last_seen = CURRENT_TIMESTAMP WHERE name = ?`. */
    method UpdateServerStatus(name: string, online: bool, now: int) returns (st: Status)
      requires Valid()
      modifies this
      ensures Valid() && reachable == old(reachable) && players == old(players)
      ensures !old(reachable) ==> st == Failed(Unreachable) && servers == old(servers)
      ensures old(reachable) ==> st == Done && servers == WithStatus(old(servers), name, online, now)
    {
      if !reachable {
        return Failed(Unreachable);
      }
      servers := WithStatus(servers, name, online, now);
      st := Done;
    }

    /**
     * `SELECT * FROM minehub_servers ORDER BY created_at DESC`, read row by row into a list:
     * every row once, newest first; rows created at the same second come in any order.
     */
    method GetAllServers() returns (q: Query<seq<Server>>)
      requires Valid()
      ensures !reachable ==> q == QueryFailed(Unreachable)
      ensures reachable ==> q.Rows? && Enumerates(q.value, servers) && SortedByCreatedDesc(q.value)
    {
      if !reachable {
        return QueryFailed(Unreachable);
      }
      var list: seq<Server> := [];
      var remaining := servers.Keys;
      while remaining != {}
        invariant remaining <= servers.Keys
        invariant forall i :: 0 <= i < |list| ==>
                    list[i].name in servers && servers[list[i].name] == list[i] && list[i].name !in remaining
        invariant forall i, j :: 0 <= i < j < |list| ==> list[i].name != list[j].name
        invariant servers.Keys - remaining <= Names(list)
        invariant SortedByCreatedDesc(list)
        invariant forall i, k :: 0 <= i < |list| && k in remaining ==> list[i].createdAt >= servers[k].createdAt
        decreases remaining
      {
        NewestExists(remaining, servers);
        var k :| k in remaining && forall k' :: k' in remaining ==> servers[k'].createdAt <= servers[k].createdAt;
        NamesAppend(list, servers[k]);
        list := list + [servers[k]];
        remaining := remaining - {k};
      }
      q := Rows(list);
    }

    /**
     * `SELECT * FROM minehub_servers WHERE last_seen < (NOW() - INTERVAL ? HOUR)`, read into a
     * list; the statement has no ORDER BY, so the rows come in any order.
     */
    method GetOfflineServers(hoursOffline: int, now: int) returns (q: Query<seq<Server>>)
      requires Valid()
      ensures !reachable ==> q == QueryFailed(Unreachable)
      ensures reachable ==> q.Rows? && Enumerates(q.value, StaleRows(servers, StaleCutoff(now, hoursOffline)))
    {
      if !reachable {
        return QueryFailed(Unreachable);
      }
      var rows := ListRows(StaleRows(servers, StaleCutoff(now, hoursOffline)));
      q := Rows(rows);
    }

    /** The owner's server count; COUNT(*) always yields one row, so the fallback 0 is never taken. */
    method GetServerCountByOwner(owner: Uuid) returns (q: Query<int>)
      ensures !reachable ==> q == QueryFailed(Unreachable)
      ensures reachable ==> q == Rows(OwnedCount(servers, owner))
    {
      if !reachable {
        return QueryFailed(Unreachable);
      }
      q := Rows(OwnedCount(servers, owner));
    }

    /**
     * `INSERT INTO minehub_players ... VALUES (?, ?, ?, CURRENT_TIMESTAMP, 1) ON DUPLICATE KEY UPDATE
     * username, last_server, last_join = CURRENT_TIMESTAMP, join_count = join_count + 1`.
     */
    method UpdatePlayerData(uuid: Uuid, username: string, lastServer: string, now: int) returns (st: Status)
      requires Valid()
      modifies this
      ensures Valid() && reachable == old(reachable) && servers == old(servers)
      ensures !old(reachable) ==> st == Failed(Unreachable) && players == old(players)
      ensures old(reachable) ==> st == Done && players == old(players)[uuid := Upserted(Get(old(players), uuid), username, lastServer, now)]
    {
      if !reachable {
        return Failed(Unreachable);
      }
      players := players[uuid := Upserted(Get(players, uuid), username, lastServer, now)];
      st := Done;
    }
  }
}
