/** The manager's settings file and the desired-state document's record
    types (internal/config/config.go), with the defaulting that `Load`
    applies after parsing. */
module Configuration {
  import opened Common

  datatype GitHubConfig = GitHubConfig(
    repoOwner: string,
    repoName: string,
    branch: string,
    configPath: string,
    pollInterval: int)

  datatype HTTPConfig = HTTPConfig(port: int)

  /** `firstRun` is not declared by config.go's ServerConfig, yet the
      reconciler reads `Server.FirstRun`; the model adds it here. */
  datatype ServerConfig = ServerConfig(
    baseDir: string,
    maxInstances: int,
    bedrockPath: string,
    memoryLimit: string,
    firstRun: bool)

  datatype Config = Config(gitHub: GitHubConfig, http: HTTPConfig, server: ServerConfig)

  /** One desired server instance, as listed in the remote servers.yaml. */
  datatype MinecraftServerConfig = MinecraftServerConfig(
    name: string,
    port: int,
    version: string,
    properties: map<string, string>,
    worldName: string,
    seed: string,
    gamemode: string,
    difficulty: string,
    maxPlayers: int,
    onlineMode: bool,
    pvp: bool,
    allowFlight: bool,
    motd: string,
    whitelist: seq<string>,
    ops: seq<string>,
    levelType: string,
    levelSeed: string,
    defaultPlayerPermissionLevel: string,
    contentLogFileEnabled: bool,
    enableScripts: bool,
    enableCommandBlocking: bool,
    maxThreads: int,
    playerIdleTimeout: int,
    maxWorldSize: int)

  /** The desired-state document: the servers in document order. */
  datatype RepoConfig = RepoConfig(servers: seq<MinecraftServerConfig>)

  datatype LoadError = ConfigUnreadable | ConfigUnparsable | BranchFileUnreadable

  // ---------------------------------------------------------------------
  // Whitespace trimming (Go's strings.TrimSpace)

  /** Unicode White_Space, the set Go's `unicode.IsSpace` accepts. */
  predicate IsSpace(c: char) {
    || c == '\t' || c == '\n' || c == '\U{000B}' || c == '\U{000C}' || c == '\r' || c == ' '
    || c == '\U{0085}' || c == '\U{00A0}' || c == '\U{1680}'
    || ('\U{2000}' <= c <= '\U{200A}')
    || c == '\U{2028}' || c == '\U{2029}' || c == '\U{202F}' || c == '\U{205F}' || c == '\U{3000}'
  }

  /** The number of white space characters `s` starts with. */
  function LeadingSpaces(s: string): (n: nat)
    ensures n <= |s|
    ensures forall k :: 0 <= k < n ==> IsSpace(s[k])
    ensures n < |s| ==> !IsSpace(s[n])
  {
    if s != [] && IsSpace(s[0]) then 1 + LeadingSpaces(s[1..]) else 0
  }

  /** The number of white space characters `s` ends with. */
  function TrailingSpaces(s: string): (n: nat)
    ensures n <= |s|
    ensures forall k :: |s| - n <= k < |s| ==> IsSpace(s[k])
    ensures n < |s| ==> !IsSpace(s[|s| - n - 1])
  {
    if s != [] && IsSpace(s[|s| - 1]) then 1 + TrailingSpaces(s[..|s| - 1]) else 0
  }

  /** `r` is the part of `s` that starts at `i`, once leading and trailing
      white space is cut away: everything cut is white space and `r`
      neither starts nor ends with any. */
  ghost predicate IsTrimmingOf(s: string, i: int, r: string) {
    && 0 <= i && i + |r| <= |s|
    && s[i..i + |r|] == r
    && (forall k :: 0 <= k < i ==> IsSpace(s[k]))
    && (forall k :: i + |r| <= k < |s| ==> IsSpace(s[k]))
    && (r != [] ==> !IsSpace(r[0]) && !IsSpace(r[|r| - 1]))
  }

  lemma TrailingOfSuffix(s: string, i: nat, n: nat)
    requires i <= |s| && n == TrailingSpaces(s[i..])
    ensures forall k :: |s| - n <= k < |s| ==> IsSpace(s[k])
  {
    var left := s[i..];
    forall k | |s| - n <= k < |s| ensures IsSpace(s[k]) {
      assert s[k] == left[k - i];
    }
  }

  /** What is left after the cut neither starts nor ends with white
      space. */
  lemma CutEndsNotSpace(s: string, i: nat, n: nat)
    requires i == LeadingSpaces(s) && n == TrailingSpaces(s[i..])
    ensures var r := s[i..|s| - n]; r != [] ==> !IsSpace(r[0]) && !IsSpace(r[|r| - 1])
  {
    var left := s[i..];
    var r := s[i..|s| - n];
    if r != [] {
      assert r[0] == s[i];
      assert r[|r| - 1] == left[|left| - n - 1];
    }
  }

  /** Cutting `i` leading and then `n` trailing white space characters
      leaves a trimming of `s`. */
  lemma CutIsTrimming(s: string, i: nat, n: nat)
    requires i == LeadingSpaces(s) && n == TrailingSpaces(s[i..])
    ensures IsTrimmingOf(s, i, s[i..|s| - n])
  {
    TrailingOfSuffix(s, i, n);
    CutEndsNotSpace(s, i, n);
  }

  /** Go's strings.TrimSpace. */
  function TrimSpace(s: string): (r: string)
    ensures IsTrimmingOf(s, LeadingSpaces(s), r)
  {
    var i := LeadingSpaces(s);
    var n := TrailingSpaces(s[i..]);
    CutIsTrimming(s, i, n);
    s[i..|s| - n]
  }

  /** Trimming a string that has been trimmed changes nothing. */
  lemma TrimSpaceIdempotent(s: string)
    ensures TrimSpace(TrimSpace(s)) == TrimSpace(s)
  {
    var r := TrimSpace(s);
    assert LeadingSpaces(r) == 0;
    assert TrailingSpaces(r) == 0;
  }

  // ---------------------------------------------------------------------
  // Load

  const BranchFileName: string := "branch"

  /** `readBranchFile`: a missing file means "no branch" (the empty string),
      any other read failure is an error, and the content is returned with
      surrounding white space removed. */
  function ReadBranchFile(read: FileRead): (r: Result<string, LoadError>)
    ensures r.Failure? <==> read.ReadError?
    ensures read.NotExist? ==> r == Success("")
    ensures read.Contents? ==> r.Success? && IsTrimmingOf(read.data, LeadingSpaces(read.data), r.value)
  {
    match read
    case NotExist => Success("")
    case ReadError(_) => Failure(BranchFileUnreadable)
    case Contents(data) => Success(TrimSpace(data))
  }

  /** The settings file's path: `$CONFIG_PATH`, or config.yaml when unset. */
  function ConfigFilePath(env: string): (path: string)
    ensures path != ""
    ensures env != "" ==> path == env
    ensures env == "" ==> path == "config.yaml"
  {
    if env == "" then "config.yaml" else env
  }

  function OrDefault(value: string, default: string): string {
    if value == "" then default else value
  }

  function OrDefaultInt(value: int, default: int): int {
    if value == 0 then default else value
  }

  /** The defaulting at the end of `Load`: a non-empty branch from the branch
      file wins over config.yaml's, which wins over "main"; every other
      setting whose value is Go's zero value gets its default, and nothing
      else changes. */
  function ApplyDefaults(c: Config, branchFromFile: string): (r: Config)
    ensures branchFromFile != "" ==> r.gitHub.branch == branchFromFile
    ensures branchFromFile == "" && c.gitHub.branch != "" ==> r.gitHub.branch == c.gitHub.branch
    ensures branchFromFile == "" && c.gitHub.branch == "" ==> r.gitHub.branch == "main"
    ensures r.gitHub.branch != "" && r.gitHub.configPath != "" && r.gitHub.pollInterval != 0
    ensures r.http.port != 0 && r.server.baseDir != "" && r.server.maxInstances != 0
    ensures r.server.bedrockPath != "" && r.server.memoryLimit != ""
    ensures r.gitHub.repoOwner == c.gitHub.repoOwner && r.gitHub.repoName == c.gitHub.repoName
    ensures r.server.firstRun == c.server.firstRun
  {
    var branch := if branchFromFile != "" then branchFromFile else OrDefault(c.gitHub.branch, "main");
    Config(
      GitHubConfig(c.gitHub.repoOwner, c.gitHub.repoName, branch,
                   OrDefault(c.gitHub.configPath, "servers.yaml"),
                   OrDefaultInt(c.gitHub.pollInterval, 60)),
      HTTPConfig(OrDefaultInt(c.http.port, 8080)),
      ServerConfig(OrDefault(c.server.baseDir, "./servers"),
                   OrDefaultInt(c.server.maxInstances, 5),
                   OrDefault(c.server.bedrockPath, "./bedrock_server"),
                   OrDefault(c.server.memoryLimit, "1G"),
                   c.server.firstRun))
  }

  /** The defaults are exactly the constants of config.go, and they are
      applied only to zero values: a set value (negative numbers included)
      is kept. */
  lemma DefaultsOnlyReplaceZeroValues(c: Config, b: string)
    ensures var r := ApplyDefaults(c, b);
      && r.gitHub.configPath == (if c.gitHub.configPath == "" then "servers.yaml" else c.gitHub.configPath)
      && r.gitHub.pollInterval == (if c.gitHub.pollInterval == 0 then 60 else c.gitHub.pollInterval)
      && r.http.port == (if c.http.port == 0 then 8080 else c.http.port)
      && r.server.baseDir == (if c.server.baseDir == "" then "./servers" else c.server.baseDir)
      && r.server.maxInstances == (if c.server.maxInstances == 0 then 5 else c.server.maxInstances)
      && r.server.bedrockPath == (if c.server.bedrockPath == "" then "./bedrock_server" else c.server.bedrockPath)
      && r.server.memoryLimit == (if c.server.memoryLimit == "" then "1G" else c.server.memoryLimit)
  {
  }

  /** Defaulting twice changes nothing more, whether the branch file is read
      again or is now absent. */
  lemma ApplyDefaultsIdempotent(c: Config, b: string)
    ensures ApplyDefaults(ApplyDefaults(c, b), b) == ApplyDefaults(c, b)
    ensures ApplyDefaults(ApplyDefaults(c, b), "") == ApplyDefaults(c, b)
  {
  }

  /** `Load`: read the settings file named by `$CONFIG_PATH`, parse it
      (`parse` stands for the YAML decoder; None is a parse error), read
      the branch file, and apply the defaults. */
  function Load(env: string, fs: string -> FileRead, parse: string -> Option<Config>): (r: Result<Config, LoadError>)
    ensures !fs(ConfigFilePath(env)).Contents? ==> r == Failure(ConfigUnreadable)
    ensures (fs(ConfigFilePath(env)).Contents? && parse(fs(ConfigFilePath(env)).data).None?)
              ==> r == Failure(ConfigUnparsable)
    ensures r.Success? <==>
              && fs(ConfigFilePath(env)).Contents?
              && parse(fs(ConfigFilePath(env)).data).Some?
              && !fs(BranchFileName).ReadError?
    ensures r.Success? ==>
              r.value == ApplyDefaults(parse(fs(ConfigFilePath(env)).data).value,
                                       ReadBranchFile(fs(BranchFileName)).value)
  {
    match fs(ConfigFilePath(env))
    case NotExist => Failure(ConfigUnreadable)
    case ReadError(_) => Failure(ConfigUnreadable)
    case Contents(data) =>
      match parse(data)
      case None => Failure(ConfigUnparsable)
      case Some(c) =>
        match ReadBranchFile(fs(BranchFileName))
        case Failure(e) => Failure(e)
        case Success(branch) => Success(ApplyDefaults(c, branch))
  }

  // ---------------------------------------------------------------------
  // Paths

  /** A file-system path built by `filepath.Join` and `filepath.Dir`, kept
      symbolic: a raw path, an element joined onto a path (no cleaning of
      "." or ".."), or the directory part of a raw file path. */
  datatype Path = Dir(raw: string) | Join(parent: Path, elem: string) | ParentOf(file: string)

  function GetServerDir(c: Config, serverName: string): Path {
    Join(Dir(c.server.baseDir), serverName)
  }

  function GetServerPropertiesPath(c: Config, serverName: string): Path {
    Join(GetServerDir(c, serverName), "server.properties")
  }

  function GetPermissionsPath(c: Config, serverName: string): Path {
    Join(GetServerDir(c, serverName), "permissions.json")
  }

  function GetWhitelistPath(c: Config, serverName: string): Path {
    Join(GetServerDir(c, serverName), "whitelist.json")
  }

  /** A server name `filepath.Join` keeps as one path element: `Join`
      cleans its result, so "a/", "./a" or "b/../a" name the same
      directory as "a". */
  predicate IsPathElement(name: string) {
    name != "" && name != "." && name != ".." && '/' !in name
  }

  /** Each server's directory lies under the base directory, and its three
      generated files lie in that directory under three different names, so
      no two of them coincide, whichever servers they belong to. */
  lemma ServerPathsLayout(c: Config, a: string, b: string)
    ensures GetServerDir(c, a).parent == Dir(c.server.baseDir) && GetServerDir(c, a).elem == a
    ensures GetServerPropertiesPath(c, a).parent == GetServerDir(c, a)
    ensures GetPermissionsPath(c, a).parent == GetServerDir(c, a)
    ensures GetWhitelistPath(c, a).parent == GetServerDir(c, a)
    ensures GetServerPropertiesPath(c, a) != GetPermissionsPath(c, b)
    ensures GetServerPropertiesPath(c, a) != GetWhitelistPath(c, b)
    ensures GetPermissionsPath(c, a) != GetWhitelistPath(c, b)
  {
  }

  /** Servers whose names are single path elements get directories, and
      so files, of their own. */
  lemma ServerPathsDistinct(c: Config, a: string, b: string)
    requires IsPathElement(a) && IsPathElement(b)
    ensures (GetServerDir(c, a) == GetServerDir(c, b)) <==> a == b
    ensures a != b ==> GetServerPropertiesPath(c, a) != GetServerPropertiesPath(c, b)
    ensures a != b ==> GetPermissionsPath(c, a) != GetPermissionsPath(c, b)
    ensures a != b ==> GetWhitelistPath(c, a) != GetWhitelistPath(c, b)
  {
  }
}
