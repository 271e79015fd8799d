/** What `startServer` prepares before it launches a server process
    (internal/server/manager.go): the remapped port, the generated
    server.properties, permissions.json and whitelist.json, and the command
    line. The file writes and the launch itself are not modelled. */
module Provision {
  import opened Common
  import opened Configuration

  // ---------------------------------------------------------------------
  // Port remapping

  /** The internal port a server binds: external ports are shifted from the
      19132 range into the 20000 range. */
  function RemapPort(port: int): (actual: int)
    ensures actual - 20000 == port - 19132
  {
    20000 + port - 19132
  }

  /** Distinct external ports never share an internal port, and the order
      of ports is kept. */
  lemma RemapPortKeepsOrder(a: int, b: int)
    ensures (RemapPort(a) == RemapPort(b)) <==> a == b
    ensures a < b <==> RemapPort(a) < RemapPort(b)
    ensures RemapPort(19132) == 20000
  {
  }

  // ---------------------------------------------------------------------
  // Decimal formatting (strconv.Itoa) and boolean formatting (strconv.FormatBool)

  predicate IsDigit(c: char) {
    '0' <= c <= '9'
  }

  function DigitChar(d: int): (c: char)
    requires 0 <= d < 10
    ensures IsDigit(c) && c as int - '0' as int == d
  {
    (d + '0' as int) as char
  }

  /** The decimal digits of `n`, without leading zeros. */
  function NatToString(n: nat): (r: string)
    ensures |r| >= 1 && forall i :: 0 <= i < |r| ==> IsDigit(r[i])
    ensures |r| > 1 ==> r[0] != '0'
    decreases n
  {
    if n < 10 then [DigitChar(n)] else NatToString(n / 10) + [DigitChar(n % 10)]
  }

  /** The number a string of decimal digits denotes. */
  function DecimalValue(s: string): int
    requires forall i :: 0 <= i < |s| ==> IsDigit(s[i])
  {
    if s == [] then 0
    else DecimalValue(s[..|s| - 1]) * 10 + (s[|s| - 1] as int - '0' as int)
  }

  lemma {:induction false} NatToStringRoundTrip(n: nat)
    ensures DecimalValue(NatToString(n)) == n
    decreases n
  {
    if n >= 10 {
      var r := NatToString(n);
      var prefix := NatToString(n / 10);
      assert r[..|r| - 1] == prefix;
      NatToStringRoundTrip(n / 10);
    }
  }

  /** strconv.Itoa: an optional minus sign and the digits of |n|. */
  function Itoa(n: int): (r: string)
    ensures |r| >= 1
    ensures r[0] == '-' <==> n < 0
    ensures n >= 0 ==> r == NatToString(n) && DecimalValue(r) == n
    ensures n < 0 ==> r == "-" + NatToString(-n) && DecimalValue(r[1..]) == -n
  {
    if n < 0 then
      var digits := NatToString(-n);
      NatToStringRoundTrip(-n);
      assert ("-" + digits)[1..] == digits;
      "-" + digits
    else
      NatToStringRoundTrip(n);
      NatToString(n)
  }

  lemma NatToStringInjective(m: nat, n: nat)
    requires NatToString(m) == NatToString(n)
    ensures m == n
  {
    NatToStringRoundTrip(m);
    NatToStringRoundTrip(n);
  }

  /** Different numbers are written differently. */
  lemma ItoaInjective(a: int, b: int)
    requires Itoa(a) == Itoa(b)
    ensures a == b
  {
    assert (a < 0) == (b < 0);
    if a < 0 {
      assert Itoa(a)[1..] == NatToString(-a);
      assert Itoa(b)[1..] == NatToString(-b);
      NatToStringInjective(-a, -b);
    } else {
      NatToStringInjective(a, b);
    }
  }

  /** strconv.FormatBool. */
  function FormatBool(b: bool): (r: string)
    ensures r == "true" <==> b
    ensures r == "false" <==> !b
  {
    if b then "true" else "false"
  }

  // ---------------------------------------------------------------------
  // server.properties

  /** The built-in keys whose value does not depend on the server. */
  const FixedProperties: map<string, string> := map[
    "allow-cheats" := "false",
    "server-authoritative-movement" := "server-auth",
    "player-movement-score-threshold" := "20",
    "player-movement-distance-threshold" := "0.3",
    "player-movement-duration-threshold-in-ms" := "500",
    "correct-player-movement" := "true",
    "enable-ipv6" := "false",
    "ipv6-port" := "0",
    "server-ip" := "",
    "server-port6" := "0",
    "enable-lan-visibility" := "false"
  ]

  /** The built-in keys taken from the server's description. */
  function DerivedProperties(spec: MinecraftServerConfig): map<string, string> {
    map[
      "gamemode" := spec.gamemode,
      "difficulty" := spec.difficulty,
      "max-players" := Itoa(spec.maxPlayers),
      "online-mode" := FormatBool(spec.onlineMode),
      "level-seed" := spec.levelSeed,
      "level-type" := spec.levelType,
      "default-player-permission-level" := spec.defaultPlayerPermissionLevel,
      "content-log-file-enabled" := FormatBool(spec.contentLogFileEnabled),
      "enable-scripts" := FormatBool(spec.enableScripts),
      "enable-command-blocking" := FormatBool(spec.enableCommandBlocking),
      "max-threads" := Itoa(spec.maxThreads),
      "player-idle-timeout" := Itoa(spec.playerIdleTimeout),
      "max-world-size" := Itoa(spec.maxWorldSize),
      "level-name" := spec.worldName,
      "server-name" := spec.name,
      "server-port" := Itoa(RemapPort(spec.port))
    ]
  }

  function BuiltinProperties(spec: MinecraftServerConfig): map<string, string> {
    DerivedProperties(spec) + FixedProperties
  }

  /** The key-value pairs of server.properties: every built-in key, with the
      server's own `properties` laid over them. */
  function ServerProperties(spec: MinecraftServerConfig): (props: map<string, string>)
    ensures props.Keys == BuiltinProperties(spec).Keys + spec.properties.Keys
    ensures forall k :: k in spec.properties ==> props[k] == spec.properties[k]
    ensures forall k :: k in BuiltinProperties(spec) && k !in spec.properties ==>
              props[k] == BuiltinProperties(spec)[k]
  {
    BuiltinProperties(spec) + spec.properties
  }

  /** Unless overridden, `server-port` is the remapped port. */
  lemma BuiltinValuesKept(spec: MinecraftServerConfig)
    ensures "server-port" !in spec.properties ==>
              ServerProperties(spec)["server-port"] == Itoa(RemapPort(spec.port))
  {
    var b := BuiltinProperties(spec);
    assert "server-port" !in FixedProperties;
    assert "server-port" in b && b["server-port"] == Itoa(RemapPort(spec.port));
  }

  /** Unless overridden, every fixed key keeps its fixed value. */
  lemma FixedValuesKept(spec: MinecraftServerConfig)
    ensures forall k :: k in FixedProperties && k !in spec.properties ==>
              ServerProperties(spec)[k] == FixedProperties[k]
  {
    forall k | k in FixedProperties && k !in spec.properties
      ensures ServerProperties(spec)[k] == FixedProperties[k]
    {
      assert BuiltinProperties(spec)[k] == FixedProperties[k];
    }
  }

  /** Unless overridden, the server's name and world name are written as
      `server-name` and `level-name`. */
  lemma NameValuesKept(spec: MinecraftServerConfig)
    ensures "server-name" !in spec.properties ==> ServerProperties(spec)["server-name"] == spec.name
    ensures "level-name" !in spec.properties ==> ServerProperties(spec)["level-name"] == spec.worldName
  {
    ServerNameBuiltin(spec);
    LevelNameBuiltin(spec);
  }

  lemma ServerNameBuiltin(spec: MinecraftServerConfig)
    ensures "server-name" in BuiltinProperties(spec) && BuiltinProperties(spec)["server-name"] == spec.name
  {
    assert "server-name" !in FixedProperties;
    assert DerivedProperties(spec)["server-name"] == spec.name;
  }

  lemma LevelNameBuiltin(spec: MinecraftServerConfig)
    ensures "level-name" in BuiltinProperties(spec) && BuiltinProperties(spec)["level-name"] == spec.worldName
  {
    assert "level-name" !in FixedProperties;
    assert DerivedProperties(spec)["level-name"] == spec.worldName;
  }

  /** The text of a properties file whose keys are written in `order`. */
  function PropertyLines(order: seq<string>, props: map<string, string>): string
    requires forall i :: 0 <= i < |order| ==> order[i] in props
  {
    if order == [] then ""
    else PropertyLines(order[..|order| - 1], props)
         + order[|order| - 1] + "=" + props[order[|order| - 1]] + "\n"
  }

  /** Writes one `key=value` line per key. A Go map is walked in no fixed
      order, so the order chosen is returned as a ghost value: it lists
      every key of `props` exactly once. */
  method RenderProperties(props: map<string, string>) returns (content: string, ghost order: seq<string>)
    ensures |order| == |props|
    ensures forall i, j :: 0 <= i < j < |order| ==> order[i] != order[j]
    ensures forall i :: 0 <= i < |order| ==> order[i] in props
    ensures forall k :: k in props ==> k in order
    ensures content == PropertyLines(order, props)
  {
    var remaining := props.Keys;
    content := "";
    order := [];
    while remaining != {}
      invariant remaining <= props.Keys
      invariant forall i :: 0 <= i < |order| ==> order[i] in props && order[i] !in remaining
      invariant forall i, j :: 0 <= i < j < |order| ==> order[i] != order[j]
      invariant forall k :: k in props ==> k in remaining || k in order
      invariant |order| + |remaining| == |props|
      invariant content == PropertyLines(order, props)
      decreases remaining
    {
      var key :| key in remaining;
      content := content + key + "=" + props[key] + "\n";
      assert (order + [key])[..|order|] == order;
      order := order + [key];
      remaining := remaining - {key};
    }
  }

  // ---------------------------------------------------------------------
  // permissions.json and whitelist.json

  datatype PermissionsEntry = PermissionsEntry(name: string, xuid: string, permission: string)

  datatype WhitelistEntry = WhitelistEntry(name: string, xuid: string)

  /** A Go slice as encoding/json writes it: a nil slice is `null`. */
  datatype JsonList<T> = Null | Array(items: seq<T>)

  /** Go's `append`: appending to a nil slice makes a one-element one. */
  function Append<T>(list: JsonList<T>, x: T): (r: JsonList<T>)
    ensures r.Array? && r.items == (if list.Null? then [] else list.items) + [x]
  {
    match list
    case Null => Array([x])
    case Array(items) => Array(items + [x])
  }

  /** The permissions document: operators first as "operator", then the
      whitelisted players as "member", each in list order and with an
      empty XUID; `null` when both lists are empty. */
  function Permissions(ops: seq<string>, whitelist: seq<string>): (doc: JsonList<PermissionsEntry>)
    ensures doc.Null? <==> ops == [] && whitelist == []
    ensures doc.Array? ==> |doc.items| == |ops| + |whitelist|
    ensures doc.Array? ==> forall i :: 0 <= i < |ops| ==>
              doc.items[i] == PermissionsEntry(ops[i], "", "operator")
    ensures doc.Array? ==> forall j :: 0 <= j < |whitelist| ==>
              doc.items[|ops| + j] == PermissionsEntry(whitelist[j], "", "member")
  {
    if ops == [] && whitelist == [] then Null
    else Array(seq(|ops|, i requires 0 <= i < |ops| => PermissionsEntry(ops[i], "", "operator"))
             + seq(|whitelist|, j requires 0 <= j < |whitelist| => PermissionsEntry(whitelist[j], "", "member")))
  }

  /** The whitelist document: every whitelisted player in order with an
      empty XUID; `null` when the whitelist is empty. */
  function Whitelist(whitelist: seq<string>): (doc: JsonList<WhitelistEntry>)
    ensures doc.Null? <==> whitelist == []
    ensures doc.Array? ==> |doc.items| == |whitelist|
    ensures doc.Array? ==> forall j :: 0 <= j < |whitelist| ==>
              doc.items[j] == WhitelistEntry(whitelist[j], "")
  {
    if whitelist == [] then Null
    else Array(seq(|whitelist|, j requires 0 <= j < |whitelist| => WhitelistEntry(whitelist[j], "")))
  }

  /** `createPermissionsFile`'s two append loops. */
  method CreatePermissions(spec: MinecraftServerConfig) returns (doc: JsonList<PermissionsEntry>)
    ensures doc == Permissions(spec.ops, spec.whitelist)
  {
    doc := Null;
    for i := 0 to |spec.ops|
      invariant doc == Permissions(spec.ops[..i], [])
    {
      doc := Append(doc, PermissionsEntry(spec.ops[i], "", "operator"));
      assert doc.items == Permissions(spec.ops[..i + 1], []).items;
    }
    assert spec.ops[..|spec.ops|] == spec.ops;
    for j := 0 to |spec.whitelist|
      invariant doc == Permissions(spec.ops, spec.whitelist[..j])
    {
      doc := Append(doc, PermissionsEntry(spec.whitelist[j], "", "member"));
      assert doc.items == Permissions(spec.ops, spec.whitelist[..j + 1]).items;
    }
    assert spec.whitelist[..|spec.whitelist|] == spec.whitelist;
  }

  /** `createWhitelistFile`'s append loop. */
  method CreateWhitelist(spec: MinecraftServerConfig) returns (doc: JsonList<WhitelistEntry>)
    ensures doc == Whitelist(spec.whitelist)
  {
    doc := Null;
    for j := 0 to |spec.whitelist|
      invariant doc == Whitelist(spec.whitelist[..j])
    {
      doc := Append(doc, WhitelistEntry(spec.whitelist[j], ""));
      assert doc.items == Whitelist(spec.whitelist[..j + 1]).items;
    }
    assert spec.whitelist[..|spec.whitelist|] == spec.whitelist;
  }

  /** Every whitelisted player appears in both documents, as a "member" in
      the permissions document right after the operators. */
  lemma WhitelistedPlayersAreMembers(spec: MinecraftServerConfig, j: int)
    requires 0 <= j < |spec.whitelist|
    ensures Whitelist(spec.whitelist).Array?
    ensures Permissions(spec.ops, spec.whitelist).Array?
    ensures Permissions(spec.ops, spec.whitelist).items[|spec.ops| + j].name
              == Whitelist(spec.whitelist).items[j].name
  {
  }

  // ---------------------------------------------------------------------
  // The launch

  /** The server command `<bedrock> -port P -worldsdir D -world W -logpath L`,
      run in the directory `workDir`. */
  datatype Command = Command(program: string, port: string, worldsDir: Path, world: string, logPath: Path,
                             workDir: Path)

  /** Everything `startServer` derives from a server's description before
      it launches the process. */
  datatype LaunchPlan = LaunchPlan(
    serverDir: Path,
    reclaimedPorts: seq<int>,
    propertiesPath: Path,
    properties: map<string, string>,
    sharedPropertiesPath: Path,
    permissionsPath: Path,
    permissions: JsonList<PermissionsEntry>,
    whitelistPath: Path,
    whitelist: JsonList<WhitelistEntry>,
    command: Command)

  /** The ports freed before the launch: the server's internal port, then
      the default IPv6 port 19133. */
  const IPv6DefaultPort := 19133

  function PlanLaunch(c: Config, bedrockPath: string, spec: MinecraftServerConfig): (plan: LaunchPlan)
    ensures plan.reclaimedPorts == [RemapPort(spec.port), IPv6DefaultPort]
    ensures plan.command.port == Itoa(RemapPort(spec.port))
    ensures plan.command.program == bedrockPath && plan.command.world == spec.worldName
    ensures plan.command.worldsDir == plan.serverDir == GetServerDir(c, spec.name)
    ensures plan.command.logPath == Join(plan.serverDir, "logs")
    ensures plan.propertiesPath == GetServerPropertiesPath(c, spec.name)
    ensures plan.properties == ServerProperties(spec)
    ensures plan.permissions == Permissions(spec.ops, spec.whitelist)
    ensures plan.whitelist == Whitelist(spec.whitelist)
    ensures plan.sharedPropertiesPath == Join(ParentOf(bedrockPath), "server.properties")
    ensures plan.command.workDir == ParentOf(bedrockPath)
    ensures plan.permissionsPath == GetPermissionsPath(c, spec.name)
    ensures plan.whitelistPath == GetWhitelistPath(c, spec.name)
  {
    var dir := GetServerDir(c, spec.name);
    var actual := RemapPort(spec.port);
    LaunchPlan(
      dir, [actual, IPv6DefaultPort],
      GetServerPropertiesPath(c, spec.name), ServerProperties(spec),
      Join(ParentOf(bedrockPath), "server.properties"),
      GetPermissionsPath(c, spec.name), Permissions(spec.ops, spec.whitelist),
      GetWhitelistPath(c, spec.name), Whitelist(spec.whitelist),
      Command(bedrockPath, Itoa(actual), dir, spec.worldName, Join(dir, "logs"), ParentOf(bedrockPath)))
  }

  /** The port written to server.properties is the port passed as `-port`,
      unless the server's own properties override `server-port`, in which
      case the file carries the override and the command line does not. */
  lemma PropertiesPortMatchesCommand(c: Config, bedrockPath: string, spec: MinecraftServerConfig)
    ensures var plan := PlanLaunch(c, bedrockPath, spec);
      "server-port" in plan.properties &&
      ("server-port" !in spec.properties ==> plan.properties["server-port"] == plan.command.port) &&
      ("server-port" in spec.properties ==> plan.properties["server-port"] == spec.properties["server-port"])
  {
    BuiltinValuesKept(spec);
  }

  /** Every server's properties are also copied to one file beside the
      binary, the directory every server process runs in: each start
      overwrites the copy the previous start wrote, while the per-server
      files of two clean, different names stay apart. */
  lemma SharedPropertiesCopy(c: Config, bedrockPath: string, a: MinecraftServerConfig, b: MinecraftServerConfig)
    requires IsPathElement(a.name) && IsPathElement(b.name) && a.name != b.name
    ensures var pa := PlanLaunch(c, bedrockPath, a);
            var pb := PlanLaunch(c, bedrockPath, b);
      && pa.sharedPropertiesPath == pb.sharedPropertiesPath
      && pa.command.workDir == pb.command.workDir
      && pa.sharedPropertiesPath.parent == pa.command.workDir
      && pa.propertiesPath != pb.propertiesPath
  {
    ServerPathsDistinct(c, a.name, b.name);
  }
}
