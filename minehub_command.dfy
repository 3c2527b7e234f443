/**
 * `/minehub [list | info <server> | connect <server> | join <server> | help | <server>]`: the
 * player-facing menu. Any first word that is not a sub-command is read as a server to join.
 */
module MineHub {
  import opened Wrappers
  import opened JavaText
  import opened Models
  import opened Proxy
  import opened Store
  import opened Registry
  import opened Commands

  /** What `execute` sets out to do, decided by the arguments alone. */
  datatype Action = ShowList | ShowInfo(name: string) | InfoUsage | Connect(name: string) | ConnectUsage | ShowHelp

  /** How a connection attempt ends: no such server, reported offline, or a connection to `target`. */
  datatype ConnectReply = NotFound(typed: string) | Offline(typed: string) | Connecting(typed: string, target: string)

  /** The reply to one invocation. */
  datatype Reply =
    | PlayersOnly
    | ServerList(servers: seq<Server>)
    | ServerDetails(server: Server)
    | UnknownServer
    | Usage(action: Action)
    | HelpText
    | ConnectResult(result: ConnectReply)

  const SubCommands := ["list", "info", "connect", "help"]

  /** The sub-command switch of `execute` on the lower-cased first word. */
  function Route(args: seq<string>): (a: Action)
    ensures args == [] ==> a == ShowList
    ensures |args| >= 1 && ToLower(args[0]) == "list" ==> a == ShowList
    ensures |args| >= 1 && ToLower(args[0]) == "help" ==> a == ShowHelp
    ensures |args| == 1 && ToLower(args[0]) == "info" ==> a == InfoUsage
    ensures |args| >= 2 && ToLower(args[0]) == "info" ==> a == ShowInfo(args[1])
    ensures |args| == 1 && ToLower(args[0]) in {"connect", "join"} ==> a == ConnectUsage
    ensures |args| >= 2 && ToLower(args[0]) in {"connect", "join"} ==> a == Connect(args[1])
    ensures |args| >= 1 && ToLower(args[0]) !in {"list", "info", "connect", "join", "help"} ==>
              a == Connect(ToLower(args[0]))
    ensures a in {InfoUsage, ConnectUsage} <==>
              |args| == 1 && ToLower(args[0]) in {"info", "connect", "join"}
    ensures a.Connect? ==>
              |args| >= 1
              && ((|args| >= 2 && ToLower(args[0]) in {"connect", "join"} && a.name == args[1])
                  || (ToLower(args[0]) !in {"list", "info", "connect", "join", "help"} && a.name == ToLower(args[0])))
    ensures a.ShowInfo? ==> |args| >= 2 && ToLower(args[0]) == "info" && a.name == args[1]
  {
    if args == [] then ShowList
    else
      var sub := ToLower(args[0]);
      if sub == "list" then ShowList
      else if sub == "info" then (if |args| < 2 then InfoUsage else ShowInfo(args[1]))
      else if sub == "connect" || sub == "join" then (if |args| < 2 then ConnectUsage else Connect(args[1]))
      else if sub == "help" then ShowHelp
      else Connect(sub)
  }

  /** The sub-command is matched whatever its case. */
  lemma RouteIgnoresCase(args: seq<string>)
    requires |args| >= 1
    ensures Route(args) == Route([ToLower(args[0])] + args[1..])
  {
    ToLowerIdempotent(args[0]);
  }

  /** A first word that is no sub-command connects to the server of that name, lower-cased. */
  lemma ShortcutConnectsLowerCased(word: string, rest: seq<string>)
    requires ToLower(word) !in {"list", "info", "connect", "join", "help"}
    ensures Route([word] + rest) == Connect(ToLower(word))
  {
  }

  /** `findFirst` over the proxy's servers of one whose name equals `typed` ignoring case. */
  function FindIgnoreCase(names: seq<string>, typed: string): (r: Option<string>)
    ensures r.Some? ==> r.value in names && EqualsIgnoreCase(r.value, typed)
    ensures r.None? <==> forall n :: n in names ==> !EqualsIgnoreCase(n, typed)
    ensures r.Some? ==>
              exists i :: 0 <= i < |names| && names[i] == r.value
                          && forall j :: 0 <= j < i ==> !EqualsIgnoreCase(names[j], typed)
    decreases |names|
  {
    if names == [] then None
    else if EqualsIgnoreCase(names[0], typed) then
      Some(names[0])
    else
      var r := FindIgnoreCase(names[1..], typed);
      if r.Some? then
        var i :| 0 <= i < |names[1..]| && names[1..][i] == r.value
                 && forall j :: 0 <= j < i ==> !EqualsIgnoreCase(names[1..][j], typed);
        assert names[i + 1] == r.value;
        assert forall j :: 0 <= j < i + 1 ==> !EqualsIgnoreCase(names[j], typed) by {
          forall j | 0 <= j < i + 1
            ensures !EqualsIgnoreCase(names[j], typed)
          {
            if j > 0 {
              assert names[j] == names[1..][j - 1];
            }
          }
        }
        r
      else
        r
  }

  /** Inputs that differ only in case find the same server. */
  lemma {:induction false} FindIgnoresCase(names: seq<string>, a: string, b: string)
    requires EqualsIgnoreCase(a, b)
    ensures FindIgnoreCase(names, a) == FindIgnoreCase(names, b)
    decreases |names|
  {
    if names != [] {
      FindIgnoresCase(names[1..], a, b);
    }
  }

  /**
   * `connectToServer` as written: the proxy is searched ignoring case, but the online check asks
   * the registry for the name exactly as typed.
   */
  function ConnectAsWritten(target: Option<string>, managed: map<string, Server>, typed: string): (r: ConnectReply)
    ensures r.typed == typed
    ensures r.NotFound? <==> target.None?
    ensures r.Connecting? <==> target.Some? && OnlineIn(managed, typed)
    ensures r.Connecting? ==> r.target == target.value
  {
    match target
    case None => NotFound(typed)
    case Some(t) => if !OnlineIn(managed, typed) then Offline(typed) else Connecting(typed, t)
  }

  /** `connectToServer` with the online check made on the server the search found. */
  function ConnectDecision(target: Option<string>, managed: map<string, Server>, typed: string): (r: ConnectReply)
    ensures r.typed == typed
    ensures r.NotFound? <==> target.None?
    ensures r.Connecting? <==> target.Some? && OnlineIn(managed, target.value)
    ensures r.Connecting? ==> r.target == target.value
  {
    match target
    case None => NotFound(typed)
    case Some(t) => if !OnlineIn(managed, t) then Offline(typed) else Connecting(typed, t)
  }

  /**
   * As written, a server whose name has a capital letter is reported offline to `/minehub Alpha`
   * (the shortcut lower-cases the name) and to `/minehub connect alpha`, although the proxy
   * finds it and the registry has it online.
   */
  lemma MixedCaseServerReportedOffline(s: Server)
    requires s.name == "Alpha" && s.online
    ensures Route(["Alpha"]) == Connect("alpha")
    ensures ConnectAsWritten(FindIgnoreCase(["Alpha"], "alpha"), map["Alpha" := s], "alpha") == Offline("alpha")
    ensures ConnectDecision(FindIgnoreCase(["Alpha"], "alpha"), map["Alpha" := s], "alpha") == Connecting("alpha", "Alpha")
  {
    assert ToLower("Alpha") == "alpha";
    assert "alpha" !in map["Alpha" := s];
  }

  /**
   * With the check made on the found server, the case of the input no longer matters, and the
   * reply is the as-written one whenever the input is the server's exact name.
   */
  lemma ConnectDecisionIgnoresCase(names: seq<string>, managed: map<string, Server>, a: string, b: string)
    requires EqualsIgnoreCase(a, b)
    ensures ConnectDecision(FindIgnoreCase(names, a), managed, a).Connecting?
        <==> ConnectDecision(FindIgnoreCase(names, b), managed, b).Connecting?
    ensures ConnectDecision(Some(a), managed, a) == ConnectAsWritten(Some(a), managed, a)
  {
    FindIgnoresCase(names, a, b);
  }

  /** The registry's names, in the order of the snapshot. */
  function NamesOf(servers: seq<Server>): (r: seq<string>)
    ensures |r| == |servers| && forall i :: 0 <= i < |servers| ==> r[i] == servers[i].name
  {
    seq(|servers|, i requires 0 <= i < |servers| => servers[i].name)
  }

  /**
   * `suggestAsync`: the four sub-commands (unfiltered) for the first word; the matching server
   * names for the second word after `connect` or `info` in any case; nothing otherwise.
   */
  function Suggestions(args: seq<string>, names: seq<string>): (r: seq<string>)
    ensures |args| == 1 ==> r == SubCommands
    ensures |args| == 2 && (EqualsIgnoreCase(args[0], "connect") || EqualsIgnoreCase(args[0], "info")) ==>
              forall n :: n in r <==> n in names && Completes(n, args[1])
    ensures |args| != 1 && !(|args| == 2 && (EqualsIgnoreCase(args[0], "connect") || EqualsIgnoreCase(args[0], "info"))) ==>
              r == []
  {
    if |args| == 1 then SubCommands
    else if |args| == 2 && (EqualsIgnoreCase(args[0], "connect") || EqualsIgnoreCase(args[0], "info")) then
      MatchingPrefix(names, args[1])
    else []
  }

  /** The sub-command words are already lower case. */
  lemma SubCommandsAreLowerCase()
    ensures forall w :: w in SubCommands ==> ToLower(w) == w
  {
    assert ToLower("list") == "list";
    assert ToLower("info") == "info";
    assert ToLower("connect") == "connect";
    assert ToLower("help") == "help";
  }

  /** Each suggested first word is a sub-command: it is never read as a server to join or describe. */
  lemma SuggestedWordsAreSubCommands(names: seq<string>, word: string, pick: string)
    requires pick in Suggestions([word], names)
    ensures !Route([pick]).Connect? && !Route([pick]).ShowInfo?
  {
    SubCommandsAreLowerCase();
    assert ToLower(pick) == pick;
  }

  /** A server name suggested after `connect` or `info` is, once accepted, the server connected to or described. */
  lemma SuggestedNamesRoute(names: seq<string>, sub: string, typed: string, pick: string)
    requires pick in Suggestions([sub, typed], names)
    ensures EqualsIgnoreCase(sub, "connect") ==> Route([sub, pick]) == Connect(pick)
    ensures EqualsIgnoreCase(sub, "info") ==> Route([sub, pick]) == ShowInfo(pick)
  {
    SubCommandsAreLowerCase();
  }

  class MineHubCommand {
    const proxy: RoutingTable
    const service: ServerManagementService

    constructor (proxy: RoutingTable, service: ServerManagementService)
      ensures this.proxy == proxy && this.service == service
    {
      this.proxy := proxy;
      this.service := service;
    }

    /**
     * `execute`. The list shows every registered server once; `info` shows the record under the
     * exact name; a connection goes to a proxy server matching the input ignoring case, and only
     * when the registry has the name as typed online.
     */
    method Execute(src: Source, args: seq<string>) returns (reply: Reply)
      requires service.Valid()
      ensures !src.Player? ==> reply == PlayersOnly
      ensures src.Player? && Route(args) == ShowList ==> reply.ServerList? && Enumerates(reply.servers, service.managed)
      ensures src.Player? && Route(args).ShowInfo? ==>
                var n := Route(args).name;
                reply == (if n in service.managed then ServerDetails(service.managed[n]) else UnknownServer)
      ensures src.Player? && Route(args) in {InfoUsage, ConnectUsage} ==> reply == Usage(Route(args))
      ensures src.Player? && Route(args) == ShowHelp ==> reply == HelpText
      ensures src.Player? && Route(args).Connect? ==>
                var n := Route(args).name;
                && reply.ConnectResult? && reply.result.typed == n
                && (reply.result.NotFound? <==> forall t :: t in proxy.servers ==> !EqualsIgnoreCase(t, n))
                && (reply.result.Connecting? ==>
                      var t := reply.result.target;
                      t in proxy.servers && EqualsIgnoreCase(t, n) && OnlineIn(service.managed, n))
                && (reply.result.Offline? <==>
                      (exists t :: t in proxy.servers && EqualsIgnoreCase(t, n)) && !OnlineIn(service.managed, n))
    {
      if !src.Player? {
        return PlayersOnly;
      }
      var action := Route(args);
      match action
      case ShowList =>
        var servers := service.GetAllManagedServers();
        reply := ServerList(servers);
      case ShowInfo(n) =>
        var info := service.GetServerInfo(n);
        reply := if info.Some? then ServerDetails(info.value) else UnknownServer;
      case InfoUsage =>
        reply := Usage(action);
      case ConnectUsage =>
        reply := Usage(action);
      case ShowHelp =>
        reply := HelpText;
      case Connect(n) =>
        var names := proxy.AllServerNames();
        reply := ConnectResult(ConnectAsWritten(FindIgnoreCase(names, n), service.managed, n));
    }

    /** `suggestAsync`, over the registry's current snapshot. */
    method Suggest(args: seq<string>) returns (names: seq<string>)
      requires service.Valid()
      ensures |args| == 1 ==> names == SubCommands
      ensures |args| == 2 && (EqualsIgnoreCase(args[0], "connect") || EqualsIgnoreCase(args[0], "info")) ==>
                forall n :: n in names <==> n in service.managed && Completes(n, args[1])
    ensures |args| != 1 && !(|args| == 2 && (EqualsIgnoreCase(args[0], "connect") || EqualsIgnoreCase(args[0], "info"))) ==>
              names == []
    {
      var servers := service.GetAllManagedServers();
      EnumeratedNames(servers, service.managed);
      var all := NamesOf(servers);
      forall n | n in service.managed
        ensures n in all
      {
        var s :| s in servers && s.name == n;
        var i :| 0 <= i < |servers| && servers[i] == s;
        assert all[i] == n;
      }
      names := Suggestions(args, all);
    }
  }
}
