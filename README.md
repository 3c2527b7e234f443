# MineHub server registry, modelled in Dafny

MineHub is a Velocity proxy plugin that lets players create their own backend servers and join
them through the proxy. This project models its core:

- The server registry, `ServerManagementService`. It keeps its map of managed servers in step
  with two collaborators. One is the proxy's routing table. The other is the MySQL table
  `minehub_servers`.
- The meaning of each SQL statement of `DatabaseManager`, over both tables: `minehub_servers`
  and `minehub_players`.
- The `ServerInfo` record.
- The periodic `ServerCleanupTask`.
- The guard chains of the three commands: `/addserver`, `/removeserver` and `/minehub`.
- The batch TCP probe of `ServerPingUtil`.
- The dotted-path lookups of `ConfigManager`.

Modelling choices:

- The proxy's routing table is the class `Proxy.RoutingTable`. It maps each name to the socket
  address the server was registered with. Registering a name the table already routes to another
  address is refused with `IllegalArgumentException`, as Velocity's `registerServer` does.
- The two tables are the class `Store.Database`. Each is a map: `minehub_servers` is keyed by
  its UNIQUE name, and `minehub_players` by its uuid. A field `reachable` stands for a pool that
  cannot hand out a connection. When it is false, every statement fails with `SQLException`.
- The socket connect is an oracle `connect(host, port, timeoutMs)`. It reports how the attempt
  ended.
- Timestamps are integers in seconds. `now` is passed in wherever the source reads the clock or
  `CURRENT_TIMESTAMP`.
- Java's `int`, `Integer.parseInt`, `Integer.toString`, `String.split`, `toLowerCase`,
  `equalsIgnoreCase` and `String.hashCode` are written out in module `JavaText`. This includes
  split's dropping of trailing empty strings and the 32-bit wrap-around.
- The asynchronous methods run to completion. Each boolean or list is the value its future
  completes with.

Where the code and its design description differ, the model follows the code:

- `addServer` checks for a duplicate only in the proxy, not in the registry's map.
- `addServer` inserts the row before it builds the socket address. A port outside 0..65535 is
  accepted by the service itself. It then fails after the insert, so the row stays in the table
  while the proxy and the map are left unchanged.
- The stored `is_online` starts FALSE, but the map keeps the probe's answer.
- `removeServer` unregisters the proxy entry before the delete. When the delete fails, the
  proxy entry is gone anyway and the result is false. Otherwise the result is true, even for an
  unknown name.
- `loadServersFromDatabase` catches only `SQLException`. A stored port that no socket address
  admits, or a stored name the proxy already routes to another address, stops the load at that
  row.
- `/minehub` tab completion offers server names after `connect` and `info` but not after
  `join`.

## Model

| member | source | states |
|---|---|---|
| Models.NewServer | src/main/java/net/minehub/velocity/models/ServerInfo.java:19-31 | a new record keeps the given name, host, port and owner; description "", 20 players, version "Unknown", offline, created and last seen at `now` |
| Models.ServerInfo.constructor | src/main/java/net/minehub/velocity/models/ServerInfo.java:19-31 | the object's fields hold exactly the defaults of `NewServer` |
| Models.ServerInfo.SetName | src/main/java/net/minehub/velocity/models/ServerInfo.java:47 | the name changes and every other field keeps its value |
| Models.ServerInfo.SetHost | src/main/java/net/minehub/velocity/models/ServerInfo.java:48 | the host changes and every other field keeps its value |
| Models.ServerInfo.SetPort | src/main/java/net/minehub/velocity/models/ServerInfo.java:49 | the port changes and every other field keeps its value |
| Models.ServerInfo.SetOwnerUuid | src/main/java/net/minehub/velocity/models/ServerInfo.java:50 | the owner uuid changes and every other field keeps its value |
| Models.ServerInfo.SetOwnerName | src/main/java/net/minehub/velocity/models/ServerInfo.java:51 | the owner name changes and every other field keeps its value |
| Models.ServerInfo.SetDescription | src/main/java/net/minehub/velocity/models/ServerInfo.java:52 | the description changes and every other field keeps its value |
| Models.ServerInfo.SetMaxPlayers | src/main/java/net/minehub/velocity/models/ServerInfo.java:53 | the player limit changes and every other field keeps its value |
| Models.ServerInfo.SetVersion | src/main/java/net/minehub/velocity/models/ServerInfo.java:54 | the version changes and every other field keeps its value |
| Models.ServerInfo.SetOnline | src/main/java/net/minehub/velocity/models/ServerInfo.java:55 | the online flag changes and every other field keeps its value |
| Models.ServerInfo.SetCreatedAt | src/main/java/net/minehub/velocity/models/ServerInfo.java:56 | the creation time changes and every other field keeps its value |
| Models.ServerInfo.SetLastSeen | src/main/java/net/minehub/velocity/models/ServerInfo.java:57 | the last-seen time changes and every other field keeps its value |
| Models.ServerInfo.GetAddress | src/main/java/net/minehub/velocity/models/ServerInfo.java:59-61 | the address splits at its colon back into the host and the port, which parses back, when the host holds no colon |
| Models.ServerInfo.Equals | src/main/java/net/minehub/velocity/models/ServerInfo.java:74-80 | equal exactly to another object with the same name (the identity shortcut adds nothing) |
| Models.ServerInfo.HashCode | src/main/java/net/minehub/velocity/models/ServerInfo.java:82-85 | the hash of the name alone |
| Models.AddressSplits | src/main/java/net/minehub/velocity/models/ServerInfo.java:59-61 | for a host without a colon, the address splits at ':' into the host and a numeral that parses back to the port |
| Models.SameServerIsNameEquivalence | src/main/java/net/minehub/velocity/models/ServerInfo.java:75-85 | equality by name is reflexive, symmetric and transitive, ignores host, port, owner and status, and equal servers hash alike |
| Models.EqualsIsSameName | src/main/java/net/minehub/velocity/models/ServerInfo.java:75-85 | `equals` holds exactly when the other object exists and has the same name; it is symmetric and agrees with `hashCode` |
| JavaText.Wrap32 | src/main/java/net/minehub/velocity/config/ConfigManager.java:108 | the result is a 32-bit int congruent to the input modulo 2^32, and equal to it when it already fits |
| JavaText.ToLower | src/main/java/net/minehub/velocity/commands/MineHubCommand.java:42 | same length; each character lower-cased on its own |
| JavaText.ToLowerIdempotent | src/main/java/net/minehub/velocity/commands/MineHubCommand.java:42 | lower-casing twice is lower-casing once |
| JavaText.IntToString | src/main/java/net/minehub/velocity/models/ServerInfo.java:60 | a printed number is never empty and holds no ':' or '.' |
| JavaText.ParseIntToString | src/main/java/net/minehub/velocity/commands/AddServerCommand.java:44-52 | parsing a printed 32-bit int gives the same int back |
| JavaText.DecimalValue | src/main/java/net/minehub/velocity/commands/AddServerCommand.java:44-52 | the digits of a natural number read back as that number |
| JavaText.ParseIntRejectsMalformed | src/main/java/net/minehub/velocity/commands/AddServerCommand.java:44-52 | the empty string, a bare sign and strings with a stray character are refused |
| JavaText.ParseIntAcceptsPlus | src/main/java/net/minehub/velocity/commands/AddServerCommand.java:44-52 | a leading '+' is accepted |
| JavaText.ParseIntAcceptsLeadingZeros | src/main/java/net/minehub/velocity/commands/AddServerCommand.java:44-52 | leading zeros are accepted |
| JavaText.ParseIntRange | src/main/java/net/minehub/velocity/commands/AddServerCommand.java:44-52 | 2147483648 overflows and is refused; -2147483648 is accepted |
| JavaText.Pieces | src/main/java/net/minehub/velocity/utils/ServerPingUtil.java:66 | at least one piece, none holding the separator |
| JavaText.JoinPieces | src/main/java/net/minehub/velocity/utils/ServerPingUtil.java:66 | joining the pieces with the separator gives the string back |
| JavaText.DropTrailingEmpty | src/main/java/net/minehub/velocity/utils/ServerPingUtil.java:66 | the result is the longest prefix that does not end in an empty string; everything dropped is empty |
| JavaText.Split | src/main/java/net/minehub/velocity/utils/ServerPingUtil.java:66 | no part holds the separator |
| JavaText.SplitIsPiecesPrefix | src/main/java/net/minehub/velocity/utils/ServerPingUtil.java:66 | `split` is every piece less the trailing empty ones, or the whole string when the separator is absent |
| JavaText.SplitAtSeparator | src/main/java/net/minehub/velocity/utils/ServerPingUtil.java:66-67 | `a + c + b` with one separator and a non-empty `b` splits into exactly `[a, b]` |
| JavaText.SplitTrailingSeparator | src/main/java/net/minehub/velocity/utils/ServerPingUtil.java:66-67 | "h:" splits into one part |
| JavaText.SplitLeadingSeparator | src/main/java/net/minehub/velocity/utils/ServerPingUtil.java:66-67 | ":1" splits into two parts, the first empty |
| JavaText.SplitDegenerate | src/main/java/net/minehub/velocity/config/ConfigManager.java:126 | the empty string splits into itself; a string of separators into no parts |
| JavaText.HashCollision | src/main/java/net/minehub/velocity/models/ServerInfo.java:83-85 | different names can share a hash code ("Aa" and "BB") |
| Ping.PingServer | src/main/java/net/minehub/velocity/utils/ServerPingUtil.java:19-33 | true exactly when the port is in 0..65535, the timeout is not negative and the connection is made; every failure is false |
| Ping.PingServerDefault | src/main/java/net/minehub/velocity/utils/ServerPingUtil.java:52-54 | the probe with a 5000 ms timeout |
| Ping.PingEntry | src/main/java/net/minehub/velocity/utils/ServerPingUtil.java:66-77 | an entry is up exactly when it splits into two parts at its colons, the second parses as an int, and the probe of that host and port succeeds; an up entry has a port in 0..65535 |
| Ping.ProbeEntry | src/main/java/net/minehub/velocity/utils/ServerPingUtil.java:66-77 | the loop body reports an entry as `PingEntry` does: false for a malformed entry, else the probe of its host and port |
| Ping.PingMultipleServers | src/main/java/net/minehub/velocity/utils/ServerPingUtil.java:62-92 | the result is aligned with the input; entry i is reported as probing that entry alone would report it |
| Ping.MalformedEntryIsDown | src/main/java/net/minehub/velocity/utils/ServerPingUtil.java:66-67 | an entry that does not split into two parts is false |
| Ping.UnparsablePortIsDown | src/main/java/net/minehub/velocity/utils/ServerPingUtil.java:72-74 | an entry whose port part is not an int is false |
| Ping.TrailingColonIsDown | src/main/java/net/minehub/velocity/utils/ServerPingUtil.java:66-67 | "h:" is false whatever the network answers |
| Ping.LeadingColonProbesEmptyHost | src/main/java/net/minehub/velocity/utils/ServerPingUtil.java:66-71 | ":1" probes the empty host on port 1 |
| Ping.AddressRoundTrip | src/main/java/net/minehub/velocity/utils/ServerPingUtil.java:66-71 | a server's own address fed to the batch probe pings that server's host and port |
| Ping.EntriesAreIndependent | src/main/java/net/minehub/velocity/utils/ServerPingUtil.java:65-78 | changing one entry does not change any other entry's result |
| Proxy.RoutingTable.RegisterServer | src/main/java/net/minehub/velocity/services/ServerManagementService.java:47 | a new name is routed to the address and no other route changes; the same name and address again changes nothing; a name already routed to another address is refused and the table stays as it was |
| Proxy.RoutingTable.UnregisterServer | src/main/java/net/minehub/velocity/services/ServerManagementService.java:64-66 | the name is no longer routed and no other route changes |
| Proxy.RoutingTable.AllServerNames | src/main/java/net/minehub/velocity/commands/MineHubCommand.java:72 | every routed name, each once |
| Proxy.RoutingTable.constructor | src/main/java/net/minehub/velocity/services/ServerManagementService.java:26-27 | the table the service is given, with exactly the given routes |
| Store.InsertedRow | src/main/java/net/minehub/velocity/database/DatabaseManager.java:76-81 | the inserted row is offline and created and last seen at `now`; every listed column keeps the record's value |
| Store.WithStatus | src/main/java/net/minehub/velocity/database/DatabaseManager.java:144-154 | only the named row changes: its online flag is set and `last_seen` becomes `now`, whether the flag is true or false; no row appears or disappears |
| Store.StaleRows | src/main/java/net/minehub/velocity/database/DatabaseManager.java:188 | the rows seen strictly before the cutoff, still keyed by name |
| Store.Upserted | src/main/java/net/minehub/velocity/database/DatabaseManager.java:239-258 | a first visit creates a row with `join_count` 1; a later visit adds one to `join_count`, keeps `first_join` and overwrites name, server and time |
| Store.ReplayCountsJoins | src/main/java/net/minehub/velocity/database/DatabaseManager.java:239-258 | after n visits from no row, `join_count` is n, `first_join` is the first visit and the rest is the last visit |
| Store.EnumerationSize | src/main/java/net/minehub/velocity/database/DatabaseManager.java:164-181 | a list holding every row once is as long as the table |
| Store.EnumeratedNames | src/main/java/net/minehub/velocity/database/DatabaseManager.java:164-181 | such a list mentions exactly the table's names |
| Store.Tabulate | src/main/java/net/minehub/velocity/services/ServerManagementService.java:81-85 | storing rows under their names gives a map keyed by name |
| Store.TabulateEnumeration | src/main/java/net/minehub/velocity/services/ServerManagementService.java:81-85 | storing every row of a table one by one rebuilds the table |
| Store.ListRows | src/main/java/net/minehub/velocity/database/DatabaseManager.java:197-214 | a result set read to its end: every row of the table once |
| Store.CountAfterInsert | src/main/java/net/minehub/velocity/database/DatabaseManager.java:221-237 | a new row raises its owner's count by one and no other owner's |
| Store.CountAfterDelete | src/main/java/net/minehub/velocity/database/DatabaseManager.java:221-237 | a delete lowers the owner's count by one, and only when the row existed |
| Store.OwnedCount | src/main/java/net/minehub/velocity/database/DatabaseManager.java:221-222 | zero exactly when no row has that owner, and never more than the number of rows |
| Store.NewestExists | src/main/java/net/minehub/velocity/database/DatabaseManager.java:157 | a non-empty set of rows has a newest one |
| Store.Database.constructor | src/main/java/net/minehub/velocity/database/DatabaseManager.java:67-105 | tables keyed by their unique name |
| Store.Database.AddServer | src/main/java/net/minehub/velocity/database/DatabaseManager.java:111-131 | failure without a connection; a duplicate name breaks the UNIQUE constraint and changes nothing; otherwise exactly the inserted row is added |
| Store.Database.RemoveServer | src/main/java/net/minehub/velocity/database/DatabaseManager.java:133-142 | deletes only the named row; an absent name is no error |
| Store.Database.UpdateServerStatus | src/main/java/net/minehub/velocity/database/DatabaseManager.java:144-154 | the table becomes `WithStatus`, or is unchanged on failure |
| Store.Database.GetAllServers | src/main/java/net/minehub/velocity/database/DatabaseManager.java:156-185 | every row exactly once, newest `created_at` first; failure without a connection |
| Store.Database.GetOfflineServers | src/main/java/net/minehub/velocity/database/DatabaseManager.java:187-219 | exactly the rows last seen more than `hours` hours before `now`, each once |
| Store.Database.GetServerCountByOwner | src/main/java/net/minehub/velocity/database/DatabaseManager.java:221-237 | the number of rows with that owner, 0 when there are none |
| Store.Database.UpdatePlayerData | src/main/java/net/minehub/velocity/database/DatabaseManager.java:239-258 | the player's row becomes the upsert of the old row; no other player and no server row changes |
| Registry.OnlineIn | src/main/java/net/minehub/velocity/services/ServerManagementService.java:106-110 | false for an unknown name, otherwise the kept flag |
| Registry.EnumeratedLoadable | src/main/java/net/minehub/velocity/services/ServerManagementService.java:81-84 | if every listed row can be loaded (usable port, name not routed elsewhere), so can every stored row |
| Registry.TabulatePart | src/main/java/net/minehub/velocity/services/ServerManagementService.java:81-85 | rows that all stand in the table under their names load into a map that agrees with the table and holds only those rows |
| Registry.AbortedLoad | src/main/java/net/minehub/velocity/services/ServerManagementService.java:81-85 | when the load stops at a row after loading every earlier row, the rows already loaded agree with the table, exclude that row and are no older than it, and every strictly newer row was loaded and loadable |
| Registry.NewerRowsLoaded | src/main/java/net/minehub/velocity/services/ServerManagementService.java:81-85 | in a newest-first listing whose first rows all loaded, every row strictly newer than the stopping row is among those loaded |
| Registry.ServerManagementService.constructor | src/main/java/net/minehub/velocity/services/ServerManagementService.java:26-31 | an empty registry over the given proxy and database |
| Registry.ServerManagementService.AddServer | src/main/java/net/minehub/velocity/services/ServerManagementService.java:33-59 | true exactly when the proxy lacks the name, the insert succeeds and the port is in 0..65535; a refusal leaves everything unchanged; on success the map holds the record with the 3000 ms probe's answer, the proxy routes to `host:port`, and the owner's count rose by one |
| Registry.ServerManagementService.RemoveServer | src/main/java/net/minehub/velocity/services/ServerManagementService.java:61-77 | the proxy always drops the name; the result is true exactly when the delete succeeds, and then the name is gone from the table and the map |
| Registry.ServerManagementService.LoadServersFromDatabase | src/main/java/net/minehub/velocity/services/ServerManagementService.java:79-90 | a failed query changes nothing; the load completes exactly when every stored row has a usable port and a name the proxy does not route elsewhere, and then every row is kept under its name and routed; otherwise it stops at a stored row that cannot be loaded: the rows loaded by then agree with the table, are no older than it and include every strictly newer row, all of them loadable, and exactly they were added to the registry and the routing table |
| Registry.ServerManagementService.LoadRows | src/main/java/net/minehub/velocity/services/ServerManagementService.java:81-85 | the loop loads a prefix of the listing, every row of it loadable, into the registry and the routing table; if it stops, the next row cannot be loaded |
| Registry.ServerManagementService.Install | src/main/java/net/minehub/velocity/services/ServerManagementService.java:82-84 | one row is routed and kept, over any earlier record of that name, exactly when the proxy does not route its name elsewhere; a refusal changes nothing |
| Registry.ServerManagementService.CleanupOfflineServers | src/main/java/net/minehub/velocity/services/ServerManagementService.java:92-104 | every stale server leaves the proxy, the table and the map, and nothing else does; a failed query changes nothing |
| Registry.ServerManagementService.UpdateAllServerStatuses | src/main/java/net/minehub/velocity/tasks/ServerCleanupTask.java:24 | the stores become exactly the given state, which keeps the registry and the table keyed by name |
| Registry.ServerManagementService.IsServerOnline | src/main/java/net/minehub/velocity/services/ServerManagementService.java:106-110 | answers as `OnlineIn` on the managed map |
| Registry.ServerManagementService.GetServerInfo | src/main/java/net/minehub/velocity/services/ServerManagementService.java:112-114 | the record exactly when the name is managed, and it carries that name |
| Registry.ServerManagementService.GetAllManagedServers | src/main/java/net/minehub/velocity/services/ServerManagementService.java:116-118 | every record once, as many as the map holds |
| Registry.ServerManagementService.GetServerCountByOwner | src/main/java/net/minehub/velocity/services/ServerManagementService.java:120-127 | the owner's stored servers, 0 when the query fails |
| Tasks.ServerCleanupTask.constructor | src/main/java/net/minehub/velocity/tasks/ServerCleanupTask.java:9-14 | a new task is running and has made no calls |
| Tasks.ServerCleanupTask.Run | src/main/java/net/minehub/velocity/tasks/ServerCleanupTask.java:17-35 | a stopped task does nothing; otherwise the refresh comes first and leaves the stores as given; if it threw, nothing more happens; if it completed, the cleanup runs with 72 hours and removes exactly the rows stale at that point (from the registry, the routing table and the table), unless the database is unreachable |
| Tasks.ServerCleanupTask.Stop | src/main/java/net/minehub/velocity/tasks/ServerCleanupTask.java:37-39 | the task is no longer running |
| Tasks.ServerCleanupTask.IsRunning | src/main/java/net/minehub/velocity/tasks/ServerCleanupTask.java:41-43 | the running flag |
| Commands.MatchingPrefix | src/main/java/net/minehub/velocity/commands/MineHubCommand.java:159-162 | exactly the names that start with the input, ignoring case; never longer than the list |
| Commands.EmptyInputMatchesAll | src/main/java/net/minehub/velocity/commands/MineHubCommand.java:159-162 | empty input keeps every name, in order |
| Commands.MatchingIgnoresCase | src/main/java/net/minehub/velocity/commands/MineHubCommand.java:159-162 | the case of the input does not matter |
| AddServer.ParsePort | src/main/java/net/minehub/velocity/commands/AddServerCommand.java:44-52 | accepted exactly when the text is an int in 1..65535 |
| AddServer.ValidServerName | src/main/java/net/minehub/velocity/commands/AddServerCommand.java:97-102 | a valid name has at least three characters and holds no colon, blank or dot |
| AddServer.CheckArguments | src/main/java/net/minehub/velocity/commands/AddServerCommand.java:21-52 | proceeds exactly for a player with at least three arguments, the permission and a valid port |
| AddServer.CheckQuotaAndName | src/main/java/net/minehub/velocity/commands/AddServerCommand.java:55-67 | an earlier refusal stands; otherwise proceeds exactly when fewer than five servers are owned and the name is valid; five or more is the limit refusal |
| AddServer.AddGuard | src/main/java/net/minehub/velocity/commands/AddServerCommand.java:21-67 | proceeds exactly when every check passes, with the first argument as name, the second as host and the parsed port |
| AddServer.ExtraArgumentsIgnored | src/main/java/net/minehub/velocity/commands/AddServerCommand.java:40-41 | arguments after the port change nothing |
| AddServer.PermissionCheckIsRedundant | src/main/java/net/minehub/velocity/commands/AddServerCommand.java:35-38 | a sender that passed `hasPermission` is never refused for permission |
| AddServer.PortRoundTrip | src/main/java/net/minehub/velocity/commands/AddServerCommand.java:44-52 | a printed port reads back exactly when it is in 1..65535 |
| AddServer.ValidNameHasNoSeparators | src/main/java/net/minehub/velocity/commands/AddServerCommand.java:97-102 | a valid name holds no space, ':' or '.' |
| AddServer.ServerNameExamples | src/main/java/net/minehub/velocity/commands/AddServerCommand.java:97-102 | "my-server_01" is valid; a two-letter name, a space and a dot are not |
| AddServer.Suggestions | src/main/java/net/minehub/velocity/commands/AddServerCommand.java:88-90 | never any completion |
| AddServer.AddServerCommand.constructor | src/main/java/net/minehub/velocity/commands/AddServerCommand.java:15-17 | the command over the given service |
| AddServer.AddServerCommand.Execute | src/main/java/net/minehub/velocity/commands/AddServerCommand.java:20-85 | a refusal changes nothing; otherwise `addServer` runs with the player as owner; it succeeds exactly when the proxy, the table and the reachable database all lack the name, and then the registry, the routing table and the table are the old ones plus the one probed, routed and inserted server, which belongs to the player and leaves the owner with at most five servers; a failure changes nothing; the database's reachability and player table never change |
| RemoveServer.RemoveGuard | src/main/java/net/minehub/velocity/commands/RemoveServerCommand.java:23-57 | proceeds exactly for a player with one argument and the permission, naming a managed server that the player owns or may remove as another's; an unknown name gets the not-found reply and a foreign one the not-owner reply |
| RemoveServer.RemovableNames | src/main/java/net/minehub/velocity/commands/RemoveServerCommand.java:80-89 | exactly the listed names the player may remove |
| RemoveServer.RemoveSuggestions | src/main/java/net/minehub/velocity/commands/RemoveServerCommand.java:77-94 | nothing unless a player types the first argument; every suggestion completes the input and names a listed server the player may remove; never more suggestions than servers |
| RemoveServer.SuggestionsAreRemovable | src/main/java/net/minehub/velocity/commands/RemoveServerCommand.java:77-94 | suggestions are exactly the managed names the player may remove that complete the input; each passes `execute`'s ownership checks |
| RemoveServer.RemoveServerCommand.constructor | src/main/java/net/minehub/velocity/commands/RemoveServerCommand.java:18-20 | the command over the given service |
| RemoveServer.RemoveServerCommand.Execute | src/main/java/net/minehub/velocity/commands/RemoveServerCommand.java:23-75 | a refusal changes nothing; an accepted request drops the name from the proxy, and then removes it from the table and the registry exactly when the database is reachable, otherwise leaving both as they were; a removed server was the player's or the player may remove others'; the database's reachability and player table never change |
| RemoveServer.RemoveServerCommand.Suggest | src/main/java/net/minehub/velocity/commands/RemoveServerCommand.java:77-94 | as `SuggestionsAreRemovable`, over the registry's snapshot |
| MineHub.Route | src/main/java/net/minehub/velocity/commands/MineHubCommand.java:37-68 | no arguments or `list` lists, `help` helps; `info` alone is a usage error and with a second argument shows it; `connect`/`join` alone is a usage error and with a second argument connects to it; any other word connects to itself lower-cased; a usage error arises exactly for a lone `info`, `connect` or `join` |
| MineHub.RouteIgnoresCase | src/main/java/net/minehub/velocity/commands/MineHubCommand.java:42 | the sub-command matches in any case |
| MineHub.ShortcutConnectsLowerCased | src/main/java/net/minehub/velocity/commands/MineHubCommand.java:65-66 | a word that is no sub-command connects to its lower-cased form |
| MineHub.FindIgnoreCase | src/main/java/net/minehub/velocity/commands/MineHubCommand.java:72-75 | a found name is in the list and equals the input ignoring case; nothing is found exactly when no name does; the found name sits at a position before which no name matches (the first match) |
| MineHub.FindIgnoresCase | src/main/java/net/minehub/velocity/commands/MineHubCommand.java:72-75 | inputs that differ only in case find the same server |
| MineHub.ConnectAsWritten | src/main/java/net/minehub/velocity/commands/MineHubCommand.java:71-89 | as written: connects, to the server found, exactly when the proxy finds a server and the name as typed is online |
| MineHub.MixedCaseServerReportedOffline | src/main/java/net/minehub/velocity/commands/MineHubCommand.java:66-89 | an online server "Alpha" is reported offline to `/minehub Alpha`; the corrected decision connects |
| MineHub.ConnectDecision | src/main/java/net/minehub/velocity/commands/MineHubCommand.java:71-89 | connects exactly when the proxy finds a server and that server is online, and connects to it |
| MineHub.ConnectDecisionIgnoresCase | src/main/java/net/minehub/velocity/commands/MineHubCommand.java:71-89 | with the correction, the case of the input does not matter, and it agrees with the code as written on exact names |
| MineHub.NamesOf | src/main/java/net/minehub/velocity/commands/MineHubCommand.java:160 | the names of the records, in order |
| MineHub.Suggestions | src/main/java/net/minehub/velocity/commands/MineHubCommand.java:150-167 | the four sub-commands for one argument; the managed names completing the second argument after `connect` or `info` in any case; nothing otherwise |
| MineHub.MineHubCommand.constructor | src/main/java/net/minehub/velocity/commands/MineHubCommand.java:22-25 | the command over the given proxy and service |
| MineHub.MineHubCommand.Execute | src/main/java/net/minehub/velocity/commands/MineHubCommand.java:27-138 | console senders are refused; the list shows every record once; `info` shows the record under the exact name; usage errors and help as routed; a connection (as written) is "not found" exactly when no proxy server matches ignoring case, "offline" exactly when one matches but the name as typed is not online, and otherwise goes to a matching proxy server |
| MineHub.MineHubCommand.Suggest | src/main/java/net/minehub/velocity/commands/MineHubCommand.java:150-167 | the four sub-commands for one argument; the registered names completing the second argument after `connect` or `info` in any case; nothing otherwise |
| MineHub.SuggestedWordsAreSubCommands | src/main/java/net/minehub/velocity/commands/MineHubCommand.java:42-68 | a suggested first word never routes to a connection or an info page |
| MineHub.SuggestedNamesRoute | src/main/java/net/minehub/velocity/commands/MineHubCommand.java:42-68 | a name suggested after `connect` or `info` is then the server connected to or described |
| Config.Lookup | src/main/java/net/minehub/velocity/config/ConfigManager.java:125-138 | no keys gives the start value; nothing stays nothing; a scalar met before the keys run out gives nothing |
| Config.LookupAppend | src/main/java/net/minehub/velocity/config/ConfigManager.java:125-138 | following a path in two parts is following the first, then the second |
| Config.StringForm | src/main/java/net/minehub/velocity/config/ConfigManager.java:96-99 | a string is itself; a number prints so that it parses back; a boolean is "true" or "false" |
| Config.IntForm | src/main/java/net/minehub/velocity/config/ConfigManager.java:105-111 | a number gives its value when it fits; anything else gives the default |
| Config.BoolForm | src/main/java/net/minehub/velocity/config/ConfigManager.java:117-123 | a boolean gives its value; anything else gives the default |
| Config.ConfigManager.constructor | src/main/java/net/minehub/velocity/config/ConfigManager.java:18-21 | nothing loaded yet |
| Config.ConfigManager.LoadConfig | src/main/java/net/minehub/velocity/config/ConfigManager.java:23-43 | a missing file gives the defaults; an empty file an empty mapping; a mapping is kept; a non-mapping document or an I/O failure fails and keeps the old configuration |
| Config.ConfigManager.CreateDefaultConfig | src/main/java/net/minehub/velocity/config/ConfigManager.java:45-90 | the configuration becomes the four default sections |
| Config.DefaultConfig | src/main/java/net/minehub/velocity/config/ConfigManager.java:45-90 | the defaults are exactly the sections `database`, `server`, `messages` and `gui`, each a mapping |
| Config.ConfigManager.GetNestedValue | src/main/java/net/minehub/velocity/config/ConfigManager.java:125-138 | the loop's answer is the walk of the dotted path from the root |
| Config.ConfigManager.GetString | src/main/java/net/minehub/velocity/config/ConfigManager.java:96-99 | the found value's text, or the default when nothing is found |
| Config.ConfigManager.GetInt | src/main/java/net/minehub/velocity/config/ConfigManager.java:105-111 | `IntForm` of the found value |
| Config.ConfigManager.GetBoolean | src/main/java/net/minehub/velocity/config/ConfigManager.java:117-123 | `BoolForm` of the found value |
| Config.ConfigManager.GetStringOrEmpty | src/main/java/net/minehub/velocity/config/ConfigManager.java:92-94 | the default is "" |
| Config.ConfigManager.GetIntOrZero | src/main/java/net/minehub/velocity/config/ConfigManager.java:101-103 | the default is 0 |
| Config.ConfigManager.GetBooleanOrFalse | src/main/java/net/minehub/velocity/config/ConfigManager.java:113-115 | the default is false |
| Config.UnloadedAnswersDefaults | src/main/java/net/minehub/velocity/config/ConfigManager.java:125-138 | before any load, every getter gives its default |
| Config.DotNamesTheRoot | src/main/java/net/minehub/velocity/config/ConfigManager.java:126 | the path "." has no keys and names the whole configuration |
| Config.TwoLevelPath | src/main/java/net/minehub/velocity/config/ConfigManager.java:126 | "section.key" splits into the two keys |
| Config.DefaultServerNumbers | src/main/java/net/minehub/velocity/config/ConfigManager.java:59-63 | the defaults hold a 72-hour cleanup interval and a limit of five servers per user |
| Config.DefaultDatabaseNumbers | src/main/java/net/minehub/velocity/config/ConfigManager.java:49-56 | the defaults hold database port 3306 and a pool of 10 |
| Config.ScalarsEndTheWalk | src/main/java/net/minehub/velocity/config/ConfigManager.java:105-138 | a path past a scalar finds nothing; the text "5" is no number and "true" no boolean |
| Config.EmptyConfigAnswersDefaults | src/main/java/net/minehub/velocity/config/ConfigManager.java:40-42 | in an empty mapping every non-empty path finds nothing |
| Config.LargeNumbersWrap | src/main/java/net/minehub/velocity/config/ConfigManager.java:108 | numbers beyond 32 bits keep only their low 32 bits |

## Left out

- Futures, thread pools and the concurrent map. Every operation runs to completion, one at a time.
- JDBC and the connection pool: only each statement's effect on the tables is modelled, and a lost connection is the `reachable` flag.
- Sockets: the connection attempt is the `connect` parameter. `getPingTime` reads the wall clock and is not modelled. `pingServerAsync` is `PingServer` run on another thread.
- The clock: times are integer seconds passed in as `now`.
- YAML parsing and writing: a file is given as its parsed document. Floats, lists, null values and non-string keys are not modelled.
- Config.StringForm: a non-empty mapping renders as the fixed text "{...}". Java's `{key=value, ...}` text depends on the file's entry order.
- JavaText.ToLower: only ASCII letters are lower-cased. Java also folds other alphabets.
- JavaText.StringHash: hashes characters, not UTF-16 code units; the two differ only outside the Basic Multilingual Plane.
- JavaText.ParseInt: accepts only ASCII digits. Java also accepts other Unicode decimal digits.
- Names are compared exactly. MySQL's case-insensitive collation on the UNIQUE name is not modelled.
- Proxy.RoutingTable.RegisterServer: the proxy (not part of this repository) keys its routes by exact name here, while Velocity compares lower-cased names, so a stored row whose name differs only in case from a route to another address does not stop the load as it would on the proxy.
- VARCHAR length limits and `join_count` overflow are not modelled.
- `ServerInfo` objects are stored as values. The registry and the table hold copies, so a setter call on a shared object that later shows in the map is not captured.
- `updateAllServerStatuses` has no definition in the repository. Registry.ServerManagementService.UpdateAllServerStatuses leaves its effect open: the stores afterwards are a parameter, constrained only by the keying the registry and the table keep, and Tasks.ServerCleanupTask.Run takes that parameter and how the call ended.
- Message text, colours, the GUI (`GuiManager`) and `toString`.
- `PlayerJoinListener` only logs.
- Plugin start-up and wiring (`MineHubVelocityPlugin`). It builds `MineHubCommand` with one argument, but the class only has a two-argument constructor.
- The proxy's `hasPermission` gate before `execute`. It appears only as AddServer.PermissionCheckIsRedundant.
- The cleanup interval and the server limit are written into the code (72 and 5), not read from the configuration. The model follows the code.
- AddServer.AddServerCommand.Execute: the owner's count is read only after the earlier checks pass. The contract states the same verdict with the count taken as 0 for a console sender, and when the database is unreachable.

## Findings

| source | as written | input that shows it | evidently intended | confidence | as-written member | corrected member |
|---|---|---|---|---|---|---|
| src/main/java/net/minehub/velocity/commands/MineHubCommand.java:82 | the proxy is searched ignoring case (:72-75), but the online check asks for the name as typed, which the default branch has lower-cased (:42, :66) | registry {"Alpha": online}, proxy routes "Alpha"; `/minehub Alpha` or `/minehub connect alpha` | the online check asks for the server the search found | not executed | MineHub.ConnectAsWritten, MineHub.MineHubCommand.Execute, MineHub.MixedCaseServerReportedOffline | MineHub.ConnectDecision, MineHub.ConnectDecisionIgnoresCase |
