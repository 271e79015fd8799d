/** The reconciler of internal/server/manager.go as functions over values:
    the fleet map from server name to running instance, the diff that
    `updateServers` applies, the decision `pollConfiguration` takes, and
    the exit report of `monitorServer`. The Manager class (ServerManager)
    is proved to change its fields exactly as these functions say. */
module Fleet {
  import opened Common
  import opened Configuration

  /** The status strings "starting", "running", "stopped" and "crashed". */
  datatype Status = Starting | Running | Stopped | Crashed

  function StatusText(s: Status): string {
    match s
    case Starting => "starting"
    case Running => "running"
    case Stopped => "stopped"
    case Crashed => "crashed"
  }

  /** An OS process handle, kept abstract. */
  type Pid = nat

  /** A tracked server (`MinecraftServer`): its description, process,
      status and external port. */
  datatype Instance = Instance(config: MinecraftServerConfig, process: Pid, status: Status, port: int)

  /** The fleet: server name to tracked instance. */
  type Servers = map<string, Instance>

  /** What launching a server does in the outside world: None when
      `startServer` gives up before the server is tracked (the directory,
      the executable check, one of the three generated files, or the
      process start failed), otherwise the new process. */
  type Launcher = MinecraftServerConfig -> Option<Pid>

  // ---------------------------------------------------------------------
  // The diff

  /** `serverConfigChanged`: only the port, the version and the world name
      decide whether a running server must be restarted. */
  function ServerConfigChanged(current: MinecraftServerConfig, next: MinecraftServerConfig): (changed: bool)
    ensures !changed <==>
              (current.port, current.version, current.worldName) == (next.port, next.version, next.worldName)
  {
    current.port != next.port || current.version != next.version || current.worldName != next.worldName
  }

  /** Whether some entry of the desired list has this name. */
  predicate InDesired(desired: seq<MinecraftServerConfig>, name: string) {
    exists i :: 0 <= i < |desired| && desired[i].name == name
  }

  /** The first loop of `updateServers`: every tracked server whose name is
      not in the desired list is stopped and forgotten. */
  function RemoveStale(servers: Servers, desired: seq<MinecraftServerConfig>): (r: Servers)
    ensures forall n :: n in r <==> n in servers && InDesired(desired, n)
    ensures forall n :: n in r ==> r[n] == servers[n]
  {
    map n | n in servers && InDesired(desired, n) :: servers[n]
  }

  /** The instance `startServer` records for a launched process. */
  function Started(spec: MinecraftServerConfig, pid: Pid): Instance {
    Instance(spec, pid, Starting, spec.port)
  }

  /** `startServer`: a server that launches is tracked under its name in
      status "starting"; one that does not leaves the fleet as it was. */
  function Launch(servers: Servers, spec: MinecraftServerConfig, launch: Launcher): (r: Servers)
    ensures launch(spec).None? ==> r == servers
    ensures launch(spec).Some? ==>
              && r.Keys == servers.Keys + {spec.name}
              && r[spec.name] == Instance(spec, launch(spec).value, Starting, spec.port)
    ensures forall n :: n in servers && n != spec.name ==> r[n] == servers[n]
  {
    match launch(spec)
    case None => servers
    case Some(pid) => servers[spec.name := Started(spec, pid)]
  }

  /** One turn of the second loop of `updateServers`. The cap is checked
      before the name is looked up, so at the cap even a changed server is
      left alone. */
  function AdmitOne(servers: Servers, spec: MinecraftServerConfig, maxInstances: int, launch: Launcher): Servers {
    if |servers| >= maxInstances then servers
    else if spec.name in servers then
      if ServerConfigChanged(servers[spec.name].config, spec)
      then Launch(servers - {spec.name}, spec, launch)
      else servers
    else Launch(servers, spec, launch)
  }

  /** The second loop of `updateServers`, over the desired list in order. */
  function Admit(servers: Servers, desired: seq<MinecraftServerConfig>, maxInstances: int, launch: Launcher): Servers
    decreases |desired|
  {
    if desired == [] then servers
    else Admit(AdmitOne(servers, desired[0], maxInstances, launch), desired[1..], maxInstances, launch)
  }

  /** `updateServers`: all removals first, then the admissions in order. */
  function Reconcile(servers: Servers, desired: seq<MinecraftServerConfig>, maxInstances: int, launch: Launcher): Servers {
    Admit(RemoveStale(servers, desired), desired, maxInstances, launch)
  }

  // ---------------------------------------------------------------------
  // Invariants of the fleet

  /** Every entry is filed under its own server's name. */
  ghost predicate Keyed(servers: Servers) {
    forall n :: n in servers ==> servers[n].config.name == n
  }

  /** No code path sets the status "running". */
  ghost predicate NeverRunning(servers: Servers) {
    forall n :: n in servers ==> servers[n].status != Running
  }

  /** The fleet holds at most `maxInstances` entries (a cap below one
      allows none). */
  ghost predicate WithinCap(servers: Servers, maxInstances: int) {
    |servers| == 0 || |servers| <= maxInstances
  }

  ghost predicate FleetInvariant(servers: Servers, maxInstances: int) {
    Keyed(servers) && NeverRunning(servers) && WithinCap(servers, maxInstances)
  }

  // ---------------------------------------------------------------------
  // Polling

  /** What one tick of `pollConfiguration` did. */
  datatype PollOutcome =
    | ShaFetchFailed     // the commit lookup failed; nothing happens
    | Unchanged          // the commit is the one already seen
    | ConfigFetchFailed  // the desired-state document could not be fetched
    | ShortShaPanic      // a changed commit id shorter than 8 characters: commitSHA[:8] panics
    | Applied            // the desired state was reconciled

  /** The reconciler's own state: the fleet, the last commit seen, and the
      last desired state applied. */
  datatype FleetState = FleetState(servers: Servers, lastCommitSHA: string, lastConfig: Option<RepoConfig>)

  datatype Polled = Polled(state: FleetState, outcome: PollOutcome)

  /** A fresh manager's state: nothing tracked, no commit seen. */
  const InitialState: FleetState := FleetState(map[], "", None)

  /** `pollConfiguration`, with the two GitHub lookups as inputs. In
      first-run mode with no commit seen yet, the commit id is stored
      before the document is fetched. */
  function Poll(settings: ServerConfig, st: FleetState, sha: Result<string, string>,
                repo: Result<RepoConfig, string>, launch: Launcher): Polled
  {
    if sha.Failure? then Polled(st, ShaFetchFailed)
    else if settings.firstRun && st.lastCommitSHA == "" then
      var marked := st.(lastCommitSHA := sha.value);
      if repo.Failure? then Polled(marked, ConfigFetchFailed)
      else Polled(marked.(servers := Reconcile(st.servers, repo.value.servers, settings.maxInstances, launch),
                          lastConfig := Some(repo.value)), Applied)
    else if sha.value == st.lastCommitSHA then Polled(st, Unchanged)
    else if |sha.value| < 8 then Polled(st, ShortShaPanic)
    else if repo.Failure? then Polled(st, ConfigFetchFailed)
    else Polled(FleetState(Reconcile(st.servers, repo.value.servers, settings.maxInstances, launch),
                           sha.value, Some(repo.value)), Applied)
  }

  /** One tick as the outside world shapes it: what the two GitHub lookups
      return, and how the launches made during that tick turn out. */
  datatype Tick = Tick(sha: Result<string, string>, repo: Result<RepoConfig, string>, launch: Launcher)

  /** Where a run of ticks ends: the state reached, and whether a tick
      panicked (which ends the process, so later ticks never happen). */
  datatype Ran = Ran(state: FleetState, panicked: bool)

  /** The loop of `Start`: the initial load and then one poll per tick, in
      order, until the ticks run out or one panics. */
  function PollAll(settings: ServerConfig, st: FleetState, ticks: seq<Tick>): Ran
    decreases |ticks|
  {
    if ticks == [] then Ran(st, false)
    else
      var p := Poll(settings, st, ticks[0].sha, ticks[0].repo, ticks[0].launch);
      if p.outcome == ShortShaPanic then Ran(p.state, true)
      else PollAll(settings, p.state, ticks[1..])
  }

  // ---------------------------------------------------------------------
  // Exits

  /** `monitorServer`'s report, which finds the entry by name alone: the
      named entry, whichever process it holds now, becomes "crashed" when
      Wait returned an error and "stopped" otherwise. */
  function RecordExit(servers: Servers, name: string, errored: bool): (r: Servers)
    ensures r.Keys == servers.Keys
    ensures forall n :: n in servers && n != name ==> r[n] == servers[n]
    ensures name in servers ==>
              r[name] == servers[name].(status := if errored then Crashed else Stopped)
  {
    if name in servers
    then servers[name := servers[name].(status := if errored then Crashed else Stopped)]
    else servers
  }

  // ---------------------------------------------------------------------
  // Status

  /** The names `GetStatus` counts as running: status "running" only. */
  function RunningNames(servers: Servers): set<string> {
    set n | n in servers && servers[n].status == Running
  }

  // ---------------------------------------------------------------------
  // Corrected definitions (see the findings in README.md)

  /** Exit report keyed on the process too: a report from a process that
      is no longer the one tracked under the name changes nothing. */
  function RecordExitOf(servers: Servers, name: string, pid: Pid, errored: bool): (r: Servers)
    ensures r.Keys == servers.Keys
    ensures forall n :: n in servers && (n != name || servers[n].process != pid) ==> r[n] == servers[n]
    ensures name in servers && servers[name].process == pid ==>
              r[name] == servers[name].(status := if errored then Crashed else Stopped)
  {
    if name in servers && servers[name].process == pid
    then servers[name := servers[name].(status := if errored then Crashed else Stopped)]
    else servers
  }

  /** The names a status report should count as running: every tracked
      server whose process has not reported an exit. */
  function LiveNames(servers: Servers): set<string> {
    set n | n in servers && (servers[n].status == Starting || servers[n].status == Running)
  }

  /** Admission with the cap applied to new servers only: a changed server
      is restarted even when the fleet is full, since a restart does not
      add an entry. */
  function AdmitOneCapOnNew(servers: Servers, spec: MinecraftServerConfig, maxInstances: int, launch: Launcher): Servers {
    if spec.name in servers then
      if ServerConfigChanged(servers[spec.name].config, spec)
      then Launch(servers - {spec.name}, spec, launch)
      else servers
    else if |servers| >= maxInstances then servers
    else Launch(servers, spec, launch)
  }

  function AdmitCapOnNew(servers: Servers, desired: seq<MinecraftServerConfig>, maxInstances: int, launch: Launcher): Servers
    decreases |desired|
  {
    if desired == [] then servers
    else AdmitCapOnNew(AdmitOneCapOnNew(servers, desired[0], maxInstances, launch), desired[1..], maxInstances, launch)
  }

  /** `updateServers` with the corrected admission. */
  function ReconcileCapOnNew(servers: Servers, desired: seq<MinecraftServerConfig>, maxInstances: int, launch: Launcher): Servers {
    AdmitCapOnNew(RemoveStale(servers, desired), desired, maxInstances, launch)
  }

  /** Polling that records the commit only once its document has been
      applied, so a failed fetch is retried on the next tick. */
  function PollRetrying(settings: ServerConfig, st: FleetState, sha: Result<string, string>,
                        repo: Result<RepoConfig, string>, launch: Launcher): Polled
  {
    if sha.Failure? then Polled(st, ShaFetchFailed)
    else if settings.firstRun && st.lastCommitSHA == "" then
      if repo.Failure? then Polled(st, ConfigFetchFailed)
      else Polled(FleetState(Reconcile(st.servers, repo.value.servers, settings.maxInstances, launch),
                             sha.value, Some(repo.value)), Applied)
    else if sha.value == st.lastCommitSHA then Polled(st, Unchanged)
    else if |sha.value| < 8 then Polled(st, ShortShaPanic)
    else if repo.Failure? then Polled(st, ConfigFetchFailed)
    else Polled(FleetState(Reconcile(st.servers, repo.value.servers, settings.maxInstances, launch),
                           sha.value, Some(repo.value)), Applied)
  }
}
