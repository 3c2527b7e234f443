/**
 * `/removeserver <name>`: a player deletes one of their servers, or anybody's with the
 * `minehub.removeserver.others` permission; tab completion offers the names they may remove.
 */
module RemoveServer {
  import opened Models
  import opened Store
  import opened Registry
  import opened Commands

  const RemovePermission := "minehub.removeserver"
  const RemoveOthersPermission := "minehub.removeserver.others"

  datatype Refusal = NotAPlayer | Usage | NoPermission | NotFound | NotOwner

  datatype Check = Refuse(why: Refusal) | Proceed(name: string)

  datatype Outcome = Refused(why: Refusal) | Removed(name: string) | NotRemoved(name: string)

  /** The player owns the server, or holds the permission to remove other players' servers. */
  predicate MayRemove(src: Source, s: Server)
    requires src.Player?
  {
    s.ownerUuid == src.uuid || HasPermission(src, RemoveOthersPermission)
  }

  /** The checks of `execute` in order: sender, exactly one argument, permission, known name, owner. */
  function RemoveGuard(src: Source, args: seq<string>, managed: map<string, Server>): (r: Check)
    ensures r.Proceed? <==>
              && src.Player? && |args| == 1 && HasPermission(src, RemovePermission)
              && args[0] in managed && MayRemove(src, managed[args[0]])
    ensures r.Proceed? ==> r.name == args[0]
    ensures src.Player? && |args| == 1 && HasPermission(src, RemovePermission) && args[0] !in managed ==>
              r == Refuse(NotFound)
    ensures && src.Player? && |args| == 1 && HasPermission(src, RemovePermission) && args[0] in managed
            && !MayRemove(src, managed[args[0]])
            ==> r == Refuse(NotOwner)
  {
    if !src.Player? then Refuse(NotAPlayer)
    else if |args| != 1 then Refuse(Usage)
    else if !HasPermission(src, RemovePermission) then Refuse(NoPermission)
    else if args[0] !in managed then Refuse(NotFound)
    else if !MayRemove(src, managed[args[0]]) then Refuse(NotOwner)
    else Proceed(args[0])
  }

  /** The names, in list order, of the listed servers the player may remove. */
  function RemovableNames(servers: seq<Server>, src: Source): (r: seq<string>)
    requires src.Player?
    ensures forall n :: n in r <==> exists s :: s in servers && s.name == n && MayRemove(src, s)
    ensures |r| <= |servers|
    decreases |servers|
  {
    if servers == [] then []
    else
      var init := servers[..|servers| - 1];
      var last := servers[|servers| - 1];
      assert servers == init + [last];
      var rest := RemovableNames(init, src);
      if MayRemove(src, last) then rest + [last.name] else rest
  }

  /** `suggestAsync`: while the first argument is typed, the matching names the player may remove. */
  function RemoveSuggestions(src: Source, args: seq<string>, servers: seq<Server>): (r: seq<string>)
    ensures |args| != 1 || !src.Player? ==> r == []
    ensures forall n :: n in r ==> Completes(n, args[0]) && exists s :: s in servers && s.name == n && src.Player? && MayRemove(src, s)
    ensures |r| <= |servers|
  {
    if |args| == 1 && src.Player? then MatchingPrefix(RemovableNames(servers, src), args[0]) else []
  }

  /**
   * Over a snapshot of the registry, the suggestions are exactly the known names that the player
   * may remove and that complete the input; each of them passes the ownership checks of `execute`.
   */
  lemma SuggestionsAreRemovable(src: Source, args: seq<string>, servers: seq<Server>, managed: map<string, Server>)
    requires Enumerates(servers, managed)
    ensures forall n :: n in RemoveSuggestions(src, args, servers) <==>
              && |args| == 1 && src.Player? && n in managed
              && MayRemove(src, managed[n]) && Completes(n, args[0])
    ensures forall n :: n in RemoveSuggestions(src, args, servers) && HasPermission(src, RemovePermission) ==>
              RemoveGuard(src, [n], managed) == Proceed(n)
  {
    EnumeratedNames(servers, managed);
    if |args| == 1 && src.Player? {
      forall n | n in managed && MayRemove(src, managed[n])
        ensures n in RemovableNames(servers, src)
      {
        var s :| s in servers && s.name == n;
        var i :| 0 <= i < |servers| && servers[i] == s;
      }
      forall n | n in RemovableNames(servers, src)
        ensures n in managed && MayRemove(src, managed[n])
      {
        var s :| s in servers && s.name == n && MayRemove(src, s);
        var i :| 0 <= i < |servers| && servers[i] == s;
      }
    }
  }

  class RemoveServerCommand {
    const service: ServerManagementService

    constructor (service: ServerManagementService)
      ensures this.service == service
    {
      this.service := service;
    }

    /**
     * `execute`: a refused request changes nothing; an accepted one calls `removeServer` once,
     * which only the owner or a player allowed to remove others' servers can reach.
     */
    method Execute(src: Source, args: seq<string>) returns (outcome: Outcome)
      requires service.Valid()
      modifies service, service.proxy, service.db
      ensures service.Valid()
      ensures service.db.reachable == old(service.db.reachable) && service.db.players == old(service.db.players)
      ensures var c := RemoveGuard(src, args, old(service.managed));
              && (c.Refuse? ==>
                    && outcome == Refused(c.why)
                    && service.managed == old(service.managed)
                    && service.proxy.servers == old(service.proxy.servers)
                    && service.db.servers == old(service.db.servers))
              && (c.Proceed? ==>
                    && !outcome.Refused? && outcome.name == c.name
                    && service.proxy.servers == old(service.proxy.servers) - {c.name}
                    && (outcome.Removed? <==> old(service.db.reachable))
                    && (outcome.Removed? ==>
                          service.managed == old(service.managed) - {c.name}
                          && service.db.servers == old(service.db.servers) - {c.name})
                    && (outcome.NotRemoved? ==>
                          service.managed == old(service.managed) && service.db.servers == old(service.db.servers)))
      ensures outcome.Removed? ==>
                src.Player? && outcome.name in old(service.managed) && MayRemove(src, old(service.managed)[outcome.name])
    {
      var c := RemoveGuard(src, args, service.managed);
      if c.Refuse? {
        return Refused(c.why);
      }
      var ok := service.RemoveServer(c.name);
      outcome := if ok then Removed(c.name) else NotRemoved(c.name);
    }

    /** `suggestAsync`, over the registry's current snapshot. */
    method Suggest(src: Source, args: seq<string>) returns (names: seq<string>)
      requires service.Valid()
      ensures forall n :: n in names <==>
                && |args| == 1 && src.Player? && n in service.managed
                && MayRemove(src, service.managed[n]) && Completes(n, args[0])
    {
      var servers := service.GetAllManagedServers();
      names := RemoveSuggestions(src, args, servers);
      SuggestionsAreRemovable(src, args, servers, service.managed);
    }
  }
}
