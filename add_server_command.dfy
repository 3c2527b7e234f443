/**
 * `/addserver <name> <host> <port> [description]`: a player registers a server of their own.
 * The checks run in a fixed order and the first that fails decides the reply.
 */
module AddServer {
  import opened Wrappers
  import opened JavaText
  import opened Models
  import opened Ping
  import opened Store
  import opened Registry
  import opened Commands

  const AddPermission := "minehub.addserver"
  const MaxServersPerOwner := 5
  const MinNameLength := 3
  const MaxNameLength := 32

  datatype Refusal = NotAPlayer | Usage | NoPermission | InvalidPort | LimitReached | InvalidName

  /** The verdict of the checks: refuse with a reason, or go ahead with name, host and port. */
  datatype Check = Refuse(why: Refusal) | Proceed(name: string, host: string, port: Int32)

  /** What the player is told in the end. */
  datatype Outcome = Refused(why: Refusal) | Added(name: string) | NotAdded(name: string)

  /** A character of `[a-zA-Z0-9_-]`. */
  predicate NameChar(c: char) {
    'a' <= c <= 'z' || 'A' <= c <= 'Z' || '0' <= c <= '9' || c == '_' || c == '-'
  }

  /** `isValidServerName`: 3 to 32 characters, all letters, digits, `_` or `-`. */
  predicate ValidServerName(name: string): (r: bool)
    ensures r ==> |name| >= MinNameLength && ':' !in name && ' ' !in name && '.' !in name
  {
    MinNameLength <= |name| <= MaxNameLength && forall i :: 0 <= i < |name| ==> NameChar(name[i])
  }

  /** The port argument: an `int` literal between 1 and 65535. */
  function ParsePort(s: string): (r: Option<Int32>)
    ensures r.Some? <==> ParseInt(s).Some? && 1 <= ParseInt(s).value <= 65535
    ensures r.Some? ==> r.value == ParseInt(s).value && PortInRange(r.value)
  {
    match ParseInt(s)
    case Some(p) => if 1 <= p <= 65535 then Some(p) else None
    case None => None
  }

  /** The checks before the owner's server count is needed: sender, arity, permission, port. */
  function CheckArguments(src: Source, args: seq<string>): (r: Check)
    ensures r.Proceed? <==> src.Player? && |args| >= 3 && HasPermission(src, AddPermission) && ParsePort(args[2]).Some?
    ensures r.Proceed? ==> r == Proceed(args[0], args[1], ParsePort(args[2]).value)
  {
    if !src.Player? then Refuse(NotAPlayer)
    else if |args| < 3 then Refuse(Usage)
    else if !HasPermission(src, AddPermission) then Refuse(NoPermission)
    else
      match ParsePort(args[2])
      case None => Refuse(InvalidPort)
      case Some(p) => Proceed(args[0], args[1], p)
  }

  /** The checks that follow: fewer than five servers owned, then a valid name. */
  function CheckQuotaAndName(c: Check, ownedCount: int): (r: Check)
    ensures c.Refuse? ==> r == c
    ensures c.Proceed? ==> (r == c <==> ownedCount < MaxServersPerOwner && ValidServerName(c.name))
    ensures c.Proceed? && ownedCount >= MaxServersPerOwner ==> r == Refuse(LimitReached)
  {
    if c.Refuse? then c
    else if ownedCount >= MaxServersPerOwner then Refuse(LimitReached)
    else if !ValidServerName(c.name) then Refuse(InvalidName)
    else c
  }

  /** All the checks of `execute`, given the count the service reports for the sender. */
  function AddGuard(src: Source, args: seq<string>, ownedCount: int): (r: Check)
    ensures r.Proceed? <==>
              && src.Player? && |args| >= 3 && HasPermission(src, AddPermission)
              && ParsePort(args[2]).Some? && ownedCount < MaxServersPerOwner && ValidServerName(args[0])
    ensures r.Proceed? ==> r == Proceed(args[0], args[1], ParsePort(args[2]).value)
    ensures !src.Player? ==> r == Refuse(NotAPlayer)
  {
    CheckQuotaAndName(CheckArguments(src, args), ownedCount)
  }

  /** Arguments after the port (the description) change nothing. */
  lemma ExtraArgumentsIgnored(src: Source, args: seq<string>, extra: seq<string>, ownedCount: int)
    requires |args| >= 3
    ensures AddGuard(src, args + extra, ownedCount) == AddGuard(src, args, ownedCount)
  {
    assert (args + extra)[0] == args[0] && (args + extra)[1] == args[1] && (args + extra)[2] == args[2];
  }

  /**
   * The proxy runs `execute` only for senders that pass `hasPermission`, which asks for the same
   * permission, so the permission refusal inside `execute` is never given.
   */
  lemma PermissionCheckIsRedundant(src: Source, args: seq<string>, ownedCount: int)
    requires HasPermission(src, AddPermission)
    ensures AddGuard(src, args, ownedCount) != Refuse(NoPermission)
  {
  }

  /** A printed port in range reads back as itself; any other `int` is refused. */
  lemma PortRoundTrip(p: Int32)
    ensures ParsePort(IntToString(p)) == (if 1 <= p <= 65535 then Some(p) else None)
  {
    ParseIntToString(p);
  }

  /** Names that pass carry no space, colon or dot, so they never split an address or a config path. */
  lemma ValidNameHasNoSeparators(name: string)
    requires ValidServerName(name)
    ensures ' ' !in name && ':' !in name && '.' !in name
  {
  }

  lemma ServerNameExamples()
    ensures ValidServerName("my-server_01")
    ensures !ValidServerName("ab") && !ValidServerName("my server") && !ValidServerName("play.example")
  {
    assert "my server"[2] == ' ';
    assert "play.example"[4] == '.';
  }

  /** `suggestAsync`: the command offers no completions, whatever has been typed. */
  function Suggestions(args: seq<string>): (r: seq<string>)
    ensures |r| == 0
  {
    []
  }

  class AddServerCommand {
    const service: ServerManagementService

    constructor (service: ServerManagementService)
      ensures this.service == service
    {
      this.service := service;
    }

    /**
     * `execute`: the checks, with the owner's count asked of the service once sender, arity,
     * permission and port are settled; then `addServer` with the player as owner. A server added
     * this way leaves its owner with at most five servers in the table.
     */
    method Execute(src: Source, args: seq<string>, now: int, connect: Connector) returns (outcome: Outcome)
      requires service.Valid()
      modifies service, service.proxy, service.db
      ensures service.Valid()
      ensures service.db.reachable == old(service.db.reachable) && service.db.players == old(service.db.players)
      ensures var count := if src.Player? && old(service.db.reachable) then OwnedCount(old(service.db.servers), src.uuid) else 0;
              var c := AddGuard(src, args, count);
              && (c.Refuse? ==>
                    && outcome == Refused(c.why)
                    && service.managed == old(service.managed)
                    && service.proxy.servers == old(service.proxy.servers)
                    && service.db.servers == old(service.db.servers))
              && (c.Proceed? ==>
                    && !outcome.Refused? && outcome.name == c.name
                    && (outcome.Added? <==>
                          c.name !in old(service.proxy.servers) && old(service.db.reachable) && c.name !in old(service.db.servers))
                    && (outcome.Added? ==>
                          var s := Probed(c.name, c.host, c.port, src.uuid, src.username, now, connect);
                          && service.managed == old(service.managed)[c.name := s]
                          && service.proxy.servers == old(service.proxy.servers)[c.name := Proxy.Endpoint(c.host, c.port)]
                          && service.db.servers == old(service.db.servers)[c.name := InsertedRow(s, now)])
                    && (outcome.NotAdded? ==>
                          && service.managed == old(service.managed)
                          && service.proxy.servers == old(service.proxy.servers)
                          && service.db.servers == old(service.db.servers)))
      ensures outcome.Added? ==>
                && src.Player? && outcome.name in service.managed
                && service.managed[outcome.name].ownerUuid == src.uuid
                && service.managed[outcome.name].description == DefaultDescription
                && outcome.name in service.proxy.servers
                && service.proxy.servers[outcome.name] == Proxy.Endpoint(args[1], ParsePort(args[2]).value)
                && OwnedCount(service.db.servers, src.uuid) <= MaxServersPerOwner
    {
      var c := CheckArguments(src, args);
      if c.Refuse? {
        return Refused(c.why);
      }
      var count := service.GetServerCountByOwner(src.uuid);
      c := CheckQuotaAndName(c, count);
      if c.Refuse? {
        return Refused(c.why);
      }
      var ok := service.AddServer(c.name, c.host, c.port, src.uuid, src.username, now, connect);
      outcome := if ok then Added(c.name) else NotAdded(c.name);
    }
  }
}
