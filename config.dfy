/**
 * `ConfigManager`: the plugin's `config.yml`, read as a tree of YAML mappings and scalars, and
 * the getters that follow a dotted path into it.
 */
module Config {
  import opened Wrappers
  import opened JavaText

  /** A loaded YAML value: a mapping with text keys, or one of the scalars the getters tell apart. */
  datatype Yaml = YMap(entries: map<string, Yaml>) | YInt(n: int) | YStr(s: string) | YBool(b: bool)

  /** What reading `config.yml` finds: no file, a document (None when empty), or an I/O failure. */
  datatype ConfigFile = Missing | Holds(doc: Option<Yaml>) | Unreadable

  function DatabaseSection(): map<string, Yaml> {
    map[
      "host" := YStr("localhost"),
      "port" := YInt(3306),
      "database" := YStr("minehub"),
      "username" := YStr("minehub"),
      "password" := YStr("password"),
      "pool-size" := YInt(10)]
  }

  function ServerSection(): map<string, Yaml> {
    map[
      "cleanup-interval-hours" := YInt(72),
      "max-servers-per-user" := YInt(5),
      "default-hub-server" := YStr("lobby")]
  }

  function MessagesSection(): map<string, Yaml> {
    map[
      "server-added" := YStr("&aServer ''{0}'' has been added to the network!"),
      "server-removed" := YStr("&cServer ''{0}'' has been removed from the network!"),
      "server-offline" := YStr("&cServer ''{0}'' is currently offline!"),
      "no-permission" := YStr("&cYou don't have permission to use this command!"),
      "server-not-found" := YStr("&cServer ''{0}'' not found!"),
      "max-servers-reached" := YStr("&cYou have reached the maximum number of servers ({0})!")]
  }

  function GuiSection(): map<string, Yaml> {
    map[
      "title" := YStr("&6MineHub Server Selector"),
      "size" := YInt(54),
      "online-server-item" := YStr("LIME_STAINED_GLASS_PANE"),
      "offline-server-item" := YStr("RED_STAINED_GLASS_PANE")]
  }

  /** A configuration of the four sections the plugin writes, each a mapping. */
  function Sections(database: map<string, Yaml>, server: map<string, Yaml>,
                    messages: map<string, Yaml>, gui: map<string, Yaml>): (r: map<string, Yaml>)
    ensures r.Keys == {"database", "server", "messages", "gui"}
    ensures forall k :: k in r ==> r[k].YMap?
  {
    map["database" := YMap(database), "server" := YMap(server), "messages" := YMap(messages), "gui" := YMap(gui)]
  }

  /** The mapping `createDefaultConfig` writes, section by section. */
  function DefaultConfig(): (r: map<string, Yaml>)
    ensures r.Keys == {"database", "server", "messages", "gui"}
    ensures forall k :: k in r ==> r[k].YMap?
  {
    Sections(DatabaseSection(), ServerSection(), MessagesSection(), GuiSection())
  }

  /**
   * The walk of `getNestedValue`: each key is looked up in the current mapping; a missing key or
   * a scalar met before the keys run out yields nothing (`null`).
   */
  function Lookup(v: Option<Yaml>, keys: seq<string>): (r: Option<Yaml>)
    ensures keys == [] ==> r == v
    ensures v.None? ==> r.None?
    ensures keys != [] && v.Some? && !v.value.YMap? ==> r.None?
    decreases |keys|
  {
    if keys == [] then v
    else
      match v
      case Some(YMap(m)) => Lookup(Get(m, keys[0]), keys[1..])
      case _ => None
  }

  /** Following a path in two parts is following the first part, then the second from there. */
  lemma {:induction false} LookupAppend(v: Option<Yaml>, a: seq<string>, b: seq<string>)
    ensures Lookup(v, a + b) == Lookup(Lookup(v, a), b)
    decreases |a|
  {
    if a == [] {
      assert a + b == b;
    } else {
      assert (a + b)[0] == a[0] && (a + b)[1..] == a[1..] + b;
      if v.Some? && v.value.YMap? {
        LookupAppend(Get(v.value.entries, a[0]), a[1..], b);
      } else {
        assert Lookup(v, a) == None;
      }
    }
  }

  /** The keys of a dotted path, as `path.split("\\.")` produces them. */
  function PathKeys(path: string): seq<string> {
    Split(path, '.')
  }

  /**
   * `value.toString()`. A non-empty mapping stands for Java's `{key=value, ...}` rendering, whose
   * entry order comes from the file; here it is the fixed text "{...}".
   */
  function StringForm(v: Yaml): (r: string)
    ensures v.YStr? ==> r == v.s
    ensures v.YInt? && InInt32(v.n) ==> ParseInt(r) == Some(v.n)
    ensures v.YBool? ==> r == (if v.b then "true" else "false")
  {
    match v
    case YStr(s) => s
    case YInt(n) =>
      var text := IntToString(n);
      assert InInt32(n) ==> ParseInt(text) == Some(n) by {
        if InInt32(n) {
          ParseIntToString(n);
        }
      }
      text
    case YBool(b) => if b then "true" else "false"
    case YMap(m) => if m == map[] then "{}" else "{...}"
  }

  /** `getInt`: a number gives its low 32 bits (`intValue()`); anything else the default. */
  function IntForm(v: Option<Yaml>, default: Int32): (r: Int32)
    ensures v.Some? && v.value.YInt? && InInt32(v.value.n) ==> r == v.value.n
    ensures (v.None? || !v.value.YInt?) ==> r == default
  {
    match v
    case Some(YInt(n)) => Wrap32(n)
    case _ => default
  }

  /** `getBoolean`: only a YAML boolean counts; the text "true" does not. */
  function BoolForm(v: Option<Yaml>, default: bool): (r: bool)
    ensures v.Some? && v.value.YBool? ==> r == v.value.b
    ensures (v.None? || !v.value.YBool?) ==> r == default
  {
    match v
    case Some(YBool(b)) => b
    case _ => default
  }

  class ConfigManager {
    /** `null` until a configuration has been loaded. */
    var config: Option<map<string, Yaml>>

    constructor ()
      ensures config.None?
    {
      config := None;
    }

    /** The value the walk starts from. */
    function Root(): Option<Yaml>
      reads this
    {
      match config
      case Some(m) => Some(YMap(m))
      case None => None
    }

    /**
     * `loadConfig`: a missing file is first written with the defaults, which are then read back;
     * an empty file gives an empty mapping; a document that is not a mapping fails the
     * assignment, and an I/O failure the read, leaving the previous configuration in place.
     */
    method LoadConfig(file: ConfigFile) returns (ok: bool)
      modifies this
      ensures ok <==> !file.Unreadable? && !(file.Holds? && file.doc.Some? && !file.doc.value.YMap?)
      ensures file.Missing? ==> config == Some(DefaultConfig())
      ensures file.Holds? && file.doc.None? ==> config == Some(map[])
      ensures file.Holds? && file.doc.Some? && file.doc.value.YMap? ==> config == Some(file.doc.value.entries)
      ensures !ok ==> config == old(config)
    {
      match file
      case Unreadable =>
        return false;
      case Missing =>
        CreateDefaultConfig();
        return true;
      case Holds(doc) =>
        match doc
        case None =>
          config := Some(map[]);
          return true;
        case Some(YMap(m)) =>
          config := Some(m);
          return true;
        case Some(_) =>
          return false;
    }

    /** `createDefaultConfig`: the default sections become the configuration (and the file's text). */
    method CreateDefaultConfig()
      modifies this
      ensures config == Some(DefaultConfig())
    {
      config := Some(DefaultConfig());
    }

    /** `getNestedValue`: the loop over the dotted path's keys. */
    method GetNestedValue(path: string) returns (value: Option<Yaml>)
      ensures value == Lookup(Root(), PathKeys(path))
    {
      var keys := PathKeys(path);
      var current := Root();
      for i := 0 to |keys|
        invariant Lookup(current, keys[i..]) == Lookup(Root(), keys)
      {
        assert keys[i..][0] == keys[i] && keys[i..][1..] == keys[i + 1..];
        match current
        case Some(YMap(m)) =>
          current := Get(m, keys[i]);
        case _ =>
          return None;
      }
      assert keys[|keys|..] == [];
      value := current;
    }

    method GetString(path: string, default: string) returns (r: string)
      ensures Lookup(Root(), PathKeys(path)).None? ==> r == default
      ensures Lookup(Root(), PathKeys(path)).Some? ==> r == StringForm(Lookup(Root(), PathKeys(path)).value)
    {
      var value := GetNestedValue(path);
      r := if value.Some? then StringForm(value.value) else default;
    }

    method GetInt(path: string, default: Int32) returns (r: Int32)
      ensures r == IntForm(Lookup(Root(), PathKeys(path)), default)
    {
      var value := GetNestedValue(path);
      r := IntForm(value, default);
    }

    method GetBoolean(path: string, default: bool) returns (r: bool)
      ensures r == BoolForm(Lookup(Root(), PathKeys(path)), default)
    {
      var value := GetNestedValue(path);
      r := BoolForm(value, default);
    }

    /** The one-argument getters default to "", 0 and false. */
    method GetStringOrEmpty(path: string) returns (r: string)
      ensures Lookup(Root(), PathKeys(path)).None? ==> r == ""
      ensures Lookup(Root(), PathKeys(path)).Some? ==> r == StringForm(Lookup(Root(), PathKeys(path)).value)
    {
      r := GetString(path, "");
    }

    method GetIntOrZero(path: string) returns (r: Int32)
      ensures r == IntForm(Lookup(Root(), PathKeys(path)), 0)
    {
      r := GetInt(path, 0);
    }

    method GetBooleanOrFalse(path: string) returns (r: bool)
      ensures r == BoolForm(Lookup(Root(), PathKeys(path)), false)
    {
      r := GetBoolean(path, false);
    }
  }

  /** Before any configuration is loaded every getter answers with its default. */
  lemma UnloadedAnswersDefaults(path: string, sd: string, id: Int32, bd: bool)
    ensures Lookup(None, PathKeys(path)) == None
    ensures IntForm(Lookup(None, PathKeys(path)), id) == id && BoolForm(Lookup(None, PathKeys(path)), bd) == bd
  {
  }

  /** The path `"."` splits into no keys, so it names the whole configuration. */
  lemma DotNamesTheRoot(m: map<string, Yaml>)
    ensures Lookup(Some(YMap(m)), PathKeys(".")) == Some(YMap(m))
  {
    assert "."[..0] == "" && "."[1..] == "";
    assert Pieces(".", '.') == ["", ""];
  }

  /** `"section.key"` splits into the two keys. */
  lemma TwoLevelPath(section: string, key: string)
    requires '.' !in section && '.' !in key && key != ""
    ensures PathKeys(section + "." + key) == [section, key]
  {
    assert section + "." + key == section + ['.'] + key;
    SplitAtSeparator(section, key, '.');
  }

  /**
   * The default server section holds the 72-hour cleanup bound and the five-server limit (the
   * paths `server.cleanup-interval-hours` and `server.max-servers-per-user`, by `TwoLevelPath`).
   */
  lemma DefaultServerNumbers()
    ensures Lookup(Some(YMap(DefaultConfig())), ["server", "cleanup-interval-hours"]) == Some(YInt(72))
    ensures Lookup(Some(YMap(DefaultConfig())), ["server", "max-servers-per-user"]) == Some(YInt(5))
  {
    var root := Some(YMap(DefaultConfig()));
    var section := Get(DefaultConfig(), "server");
    assert section == Some(YMap(ServerSection()));
    assert Lookup(root, ["server", "cleanup-interval-hours"]) == Lookup(section, ["cleanup-interval-hours"]) by {
      assert ["server", "cleanup-interval-hours"][1..] == ["cleanup-interval-hours"];
    }
    assert Lookup(root, ["server", "max-servers-per-user"]) == Lookup(section, ["max-servers-per-user"]) by {
      assert ["server", "max-servers-per-user"][1..] == ["max-servers-per-user"];
    }
  }

  /** The default database section points at port 3306 with a pool of ten connections. */
  lemma DefaultDatabaseNumbers()
    ensures Lookup(Some(YMap(DefaultConfig())), ["database", "port"]) == Some(YInt(3306))
    ensures Lookup(Some(YMap(DefaultConfig())), ["database", "pool-size"]) == Some(YInt(10))
  {
    var root := Some(YMap(DefaultConfig()));
    var section := Get(DefaultConfig(), "database");
    assert section == Some(YMap(DatabaseSection()));
    assert Lookup(root, ["database", "port"]) == Lookup(section, ["port"]) by {
      assert ["database", "port"][1..] == ["port"];
    }
    assert Lookup(root, ["database", "pool-size"]) == Lookup(section, ["pool-size"]) by {
      assert ["database", "pool-size"][1..] == ["pool-size"];
    }
  }

  /** A path that runs past a scalar finds nothing; the text "5" is no number, nor "true" a boolean. */
  lemma ScalarsEndTheWalk()
    ensures Lookup(Some(YMap(DefaultConfig())), ["database", "port", "x"]) == None
    ensures IntForm(Some(YStr("5")), 0) == 0
    ensures BoolForm(Some(YStr("true")), false) == false
  {
  }

  /**
   * An empty file loads as an empty mapping: every path with at least one key then gives the
   * getter's default.
   */
  lemma EmptyConfigAnswersDefaults(keys: seq<string>)
    requires keys != []
    ensures Lookup(Some(YMap(map[])), keys) == None
  {
  }

  /** A number beyond 32 bits comes back wrapped, as `intValue()` truncates it. */
  lemma LargeNumbersWrap()
    ensures IntForm(Some(YInt(0x8000_0000)), 0) == -0x8000_0000
    ensures IntForm(Some(YInt(0x1_0000_0005)), 0) == 5
  {
  }
}
