/**
 * `ServerInfo`: one managed backend server. The class keeps the source's eleven mutable fields
 * and setters; `Server` is the value such an object holds at a moment, which is what the
 * registry and the tables store. Timestamps are integer seconds; `now` stands for
 * `LocalDateTime.now()`.
 */
module Models {
  import opened Wrappers
  import opened JavaText

  /** The text of a `java.util.UUID` (`toString`), which is also how the tables store it. */
  type Uuid = string

  datatype Server = Server(
    name: string,
    host: string,
    port: Int32,
    ownerUuid: Uuid,
    ownerName: string,
    description: string,
    maxPlayers: Int32,
    version: string,
    online: bool,
    createdAt: int,
    lastSeen: int)

  const DefaultDescription := ""
  const DefaultMaxPlayers: Int32 := 20
  const DefaultVersion := "Unknown"

  /** The value of `new ServerInfo(name, host, port, ownerUuid, ownerName)` created at `now`. */
  function NewServer(name: string, host: string, port: Int32, ownerUuid: Uuid, ownerName: string, now: int): (s: Server)
    ensures s.name == name && s.host == host && s.port == port
    ensures s.ownerUuid == ownerUuid && s.ownerName == ownerName
    ensures s.description == "" && s.maxPlayers == 20 && s.version == "Unknown" && !s.online
    ensures s.createdAt == now && s.lastSeen == now
  {
    Server(name, host, port, ownerUuid, ownerName, DefaultDescription, DefaultMaxPlayers, DefaultVersion, false, now, now)
  }

  /** `getAddress()`: the host, a colon, and the port in decimal. */
  function Address(s: Server): string {
    s.host + ":" + IntToString(s.port)
  }

  /** An address splits back into its host and its port, when the host holds no colon. */
  lemma AddressSplits(s: Server)
    requires ':' !in s.host
    ensures Split(Address(s), ':') == [s.host, IntToString(s.port)]
    ensures ParseInt(IntToString(s.port)) == Some(s.port)
  {
    SplitAtSeparator(s.host, IntToString(s.port), ':');
    ParseIntToString(s.port);
  }

  /** `equals` on the values: two servers are the same server exactly when their names agree. */
  predicate SameServer(a: Server, b: Server) {
    a.name == b.name
  }

  /** `hashCode`: the hash of the name alone. */
  function Hash(s: Server): Int32 {
    StringHash(s.name)
  }

  /** `equals` ignores every field but the name, is an equivalence, and agrees with `hashCode`. */
  lemma SameServerIsNameEquivalence(a: Server, b: Server, c: Server)
    ensures SameServer(a, a)
    ensures SameServer(a, b) <==> SameServer(b, a)
    ensures SameServer(a, b) && SameServer(b, c) ==> SameServer(a, c)
    ensures SameServer(a, b) ==> Hash(a) == Hash(b)
    ensures SameServer(a, a.(host := b.host, port := b.port, online := !a.online, ownerUuid := b.ownerUuid))
  {
  }

  /** Every entry of a name-keyed map is stored under its own name. */
  ghost predicate KeyedByName(m: map<string, Server>) {
    forall k :: k in m ==> m[k].name == k
  }

  class ServerInfo {
    var name: string
    var host: string
    var port: Int32
    var ownerUuid: Uuid
    var ownerName: string
    var description: string
    var maxPlayers: Int32
    var version: string
    var isOnline: bool
    var createdAt: int
    var lastSeen: int

    /** The fields as one value; the getters of the source are reads of these fields. */
    function Value(): Server
      reads this
    {
      Server(name, host, port, ownerUuid, ownerName, description, maxPlayers, version, isOnline, createdAt, lastSeen)
    }

    constructor (name: string, host: string, port: Int32, ownerUuid: Uuid, ownerName: string, now: int)
      ensures Value() == NewServer(name, host, port, ownerUuid, ownerName, now)
    {
      this.name := name;
      this.host := host;
      this.port := port;
      this.ownerUuid := ownerUuid;
      this.ownerName := ownerName;
      this.description := DefaultDescription;
      this.maxPlayers := DefaultMaxPlayers;
      this.version := DefaultVersion;
      this.isOnline := false;
      this.createdAt := now;
      this.lastSeen := now;
    }

    method SetName(name: string)
      modifies this
      ensures Value() == old(Value()).(name := name)
    {
      this.name := name;
    }

    method SetHost(host: string)
      modifies this
      ensures Value() == old(Value()).(host := host)
    {
      this.host := host;
    }

    method SetPort(port: Int32)
      modifies this
      ensures Value() == old(Value()).(port := port)
    {
      this.port := port;
    }

    method SetOwnerUuid(ownerUuid: Uuid)
      modifies this
      ensures Value() == old(Value()).(ownerUuid := ownerUuid)
    {
      this.ownerUuid := ownerUuid;
    }

    method SetOwnerName(ownerName: string)
      modifies this
      ensures Value() == old(Value()).(ownerName := ownerName)
    {
      this.ownerName := ownerName;
    }

    method SetDescription(description: string)
      modifies this
      ensures Value() == old(Value()).(description := description)
    {
      this.description := description;
    }

    method SetMaxPlayers(maxPlayers: Int32)
      modifies this
      ensures Value() == old(Value()).(maxPlayers := maxPlayers)
    {
      this.maxPlayers := maxPlayers;
    }

    method SetVersion(version: string)
      modifies this
      ensures Value() == old(Value()).(version := version)
    {
      this.version := version;
    }

    method SetOnline(online: bool)
      modifies this
      ensures Value() == old(Value()).(online := online)
    {
      this.isOnline := online;
    }

    method SetCreatedAt(createdAt: int)
      modifies this
      ensures Value() == old(Value()).(createdAt := createdAt)
    {
      this.createdAt := createdAt;
    }

    method SetLastSeen(lastSeen: int)
      modifies this
      ensures Value() == old(Value()).(lastSeen := lastSeen)
    {
      this.lastSeen := lastSeen;
    }

    /** `getAddress()`: splits back into the host and the port when the host holds no colon. */
    function GetAddress(): (r: string)
      reads this
      ensures ':' !in host ==> Split(r, ':') == [host, IntToString(port)] && ParseInt(Split(r, ':')[1]) == Some(port)
    {
      var a := Address(Value());
      if ':' in host then a else AddressSplits(Value()); a
    }

    /** `equals(obj)`: the same object, or another `ServerInfo` with an equal name. */
    predicate Equals(that: ServerInfo?): (r: bool)
      reads this, that
      ensures r <==> that != null && that.name == name
    {
      this == that || (that != null && name == that.name)
    }

    /** `hashCode()`: a function of the name alone. */
    function HashCode(): (r: Int32)
      reads this
      ensures r == StringHash(name)
    {
      Hash(Value())
    }
  }

  /** The identity shortcut in `equals` changes nothing: objects are equal exactly when their names are. */
  lemma EqualsIsSameName(a: ServerInfo, b: ServerInfo?)
    ensures a.Equals(b) <==> b != null && SameServer(a.Value(), b.Value())
    ensures a.Equals(b) ==> b != null && b.Equals(a) && a.HashCode() == b.HashCode()
  {
  }
}
