/** The manager object of internal/server/manager.go: the fleet map, the
    last commit and document seen, and the binary in use, updated in place
    by its methods. Each method is proved to leave the fields exactly as
    the corresponding function of the Fleet module says, and to keep the
    fleet invariant. */
module ServerManager {
  import opened Common
  import opened Configuration
  import opened Fleet
  import opened FleetProperties
  import Archive

  /** One entry of the status report (`ServerStatus`, without the start
      time, uptime and player count). */
  datatype ServerStatus = ServerStatus(name: string, status: string, port: int)

  /** The status report (`ManagerStatus`, without the time stamp). */
  datatype ManagerStatus = ManagerStatus(totalServers: int, running: int, stopped: int,
                                         servers: seq<ServerStatus>, bedrockPath: string)

  /** The report entry for a tracked server. */
  function StatusOf(servers: Servers, name: string): (e: ServerStatus)
    requires name in servers
    ensures e.name == name && e.port == servers[name].port
    ensures e.status == StatusText(servers[name].status)
  {
    ServerStatus(name, StatusText(servers[name].status), servers[name].port)
  }

  /** The names among `names` whose tracked status is "running". */
  ghost function RunningAmong(servers: Servers, names: set<string>): set<string> {
    set n | n in names && n in servers && servers[n].status == Running
  }

  lemma RunningAmongAdd(servers: Servers, names: set<string>, name: string)
    requires name in servers && name !in names
    ensures |RunningAmong(servers, names + {name})|
            == |RunningAmong(servers, names)| + (if servers[name].status == Running then 1 else 0)
  {
    if servers[name].status == Running {
      assert RunningAmong(servers, names + {name}) == RunningAmong(servers, names) + {name};
    } else {
      assert RunningAmong(servers, names + {name}) == RunningAmong(servers, names);
    }
  }

  /** `entries` holds one report entry per tracked server, each name
      once. */
  ghost predicate ListsFleet(entries: seq<ServerStatus>, servers: Servers) {
    && |entries| == |servers|
    && (forall k :: 0 <= k < |entries| ==> entries[k].name in servers && entries[k] == StatusOf(servers, entries[k].name))
    && (forall n :: n in servers ==> exists k :: 0 <= k < |entries| && entries[k].name == n)
    && (forall j, k :: 0 <= j < k < |entries| ==> entries[j].name != entries[k].name)
  }

  /** The entries list the servers of `seen`, each once. */
  ghost predicate ListsAmong(entries: seq<ServerStatus>, servers: Servers, seen: set<string>) {
    && |entries| == |seen|
    && (forall k :: 0 <= k < |entries| ==> entries[k].name in seen && entries[k].name in servers
                                           && entries[k] == StatusOf(servers, entries[k].name))
    && (forall n :: n in seen ==> exists k :: 0 <= k < |entries| && entries[k].name == n)
    && (forall j, k :: 0 <= j < k < |entries| ==> entries[j].name != entries[k].name)
  }

  lemma ListsAmongAdd(entries: seq<ServerStatus>, servers: Servers, seen: set<string>, name: string)
    requires ListsAmong(entries, servers, seen) && name in servers && name !in seen
    ensures ListsAmong(entries + [StatusOf(servers, name)], servers, seen + {name})
  {
    var next := entries + [StatusOf(servers, name)];
    forall k | 0 <= k < |next|
      ensures next[k].name in seen + {name} && next[k].name in servers
      ensures next[k] == StatusOf(servers, next[k].name)
    {
      if k < |entries| {
        assert next[k] == entries[k];
      }
    }
    forall j, k | 0 <= j < k < |next|
      ensures next[j].name != next[k].name
    {
      assert next[j] == entries[j];
      if k < |entries| {
        assert next[k] == entries[k];
      }
    }
    forall n | n in seen + {name}
      ensures exists k :: 0 <= k < |next| && next[k].name == n
    {
      if n == name {
        assert next[|entries|].name == n;
      } else {
        var k :| 0 <= k < |entries| && entries[k].name == n;
        assert next[k] == entries[k];
      }
    }
  }

  /** What the loop of `GetStatus` knows after visiting the names of
      `seen`, with `remaining` still to visit. */
  ghost predicate SummaryInv(servers: Servers, remaining: set<string>, seen: set<string>,
                             entries: seq<ServerStatus>, running: int, stopped: int) {
    && remaining + seen == servers.Keys && remaining !! seen
    && running + stopped == |seen|
    && running == |RunningAmong(servers, seen)|
    && ListsAmong(entries, servers, seen)
  }

  lemma SummaryStep(servers: Servers, remaining: set<string>, seen: set<string>,
                    entries: seq<ServerStatus>, running: int, stopped: int, name: string)
    requires SummaryInv(servers, remaining, seen, entries, running, stopped) && name in remaining
    ensures var isRunning := servers[name].status == Running;
      SummaryInv(servers, remaining - {name}, seen + {name}, entries + [StatusOf(servers, name)],
                 if isRunning then running + 1 else running, if isRunning then stopped else stopped + 1)
  {
    RunningAmongAdd(servers, seen, name);
    ListsAmongAdd(entries, servers, seen, name);
  }

  lemma SummaryDone(servers: Servers, seen: set<string>, entries: seq<ServerStatus>, running: int, stopped: int)
    requires SummaryInv(servers, {}, seen, entries, running, stopped)
    ensures ListsFleet(entries, servers)
    ensures running == |RunningNames(servers)| && running + stopped == |servers|
  {
    assert seen == servers.Keys;
    assert RunningAmong(servers, seen) == RunningNames(servers);
  }

  /** The loop of `GetStatus` over the tracked servers. */
  method Summarize(servers: Servers) returns (entries: seq<ServerStatus>, running: int, stopped: int)
    ensures ListsFleet(entries, servers)
    ensures running == |RunningNames(servers)| && running + stopped == |servers|
  {
    var remaining := servers.Keys;
    entries := [];
    running, stopped := 0, 0;
    ghost var seen: set<string> := {};
    while remaining != {}
      invariant SummaryInv(servers, remaining, seen, entries, running, stopped)
      decreases |remaining|
    {
      var name :| name in remaining;
      SummaryStep(servers, remaining, seen, entries, running, stopped, name);
      if servers[name].status == Running {
        running := running + 1;
      } else {
        stopped := stopped + 1;
      }
      entries := entries + [StatusOf(servers, name)];
      seen := seen + {name};
      remaining := remaining - {name};
    }
    SummaryDone(servers, seen, entries, running, stopped);
  }

  class Manager {
    const config: Config
    var servers: Servers
    var lastCommitSHA: string
    var lastConfig: Option<RepoConfig>
    var bedrockPath: string

    ghost predicate Valid()
      reads this
    {
      FleetInvariant(servers, config.server.maxInstances)
    }

    function State(): FleetState
      reads this
    {
      FleetState(servers, lastCommitSHA, lastConfig)
    }

    /** `NewManager`: nothing tracked, no commit seen. */
    constructor (config: Config)
      ensures Valid()
      ensures this.config == config && State() == InitialState && bedrockPath == ""
    {
      this.config := config;
      servers := map[];
      lastCommitSHA := "";
      lastConfig := None;
      bedrockPath := "";
    }

    /** `initializeBedrockServer`: the binary to run is the configured one
        when there is no archive, the extracted one otherwise; on an error
        the path is left as it was. */
    method InitializeBedrockServer(archive: Archive.ArchiveFile, staleLayers: map<int, seq<byte>>,
                                   hash: seq<byte> -> string, hostIO: bool, extracted: bool)
      returns (r: Result<string, Archive.ArchiveError>)
      modifies this
      ensures State() == old(State())
      ensures r.Success? ==> bedrockPath == r.value
      ensures r.Failure? ==> bedrockPath == old(bedrockPath)
      ensures archive.Absent? ==> r == Success(config.server.bedrockPath)
      ensures archive.StatFailed? ==> r == Failure(Archive.ArchiveUnreadable)
      ensures archive.Present? ==> (r.Success? <==> hostIO && extracted)
      ensures archive.Present? && r.Success? ==> r.value == Archive.ExtractedBedrockPath
    {
      r := Archive.InitializeBedrockServer(archive, staleLayers, config.server.bedrockPath, hash, hostIO, extracted);
      if r.Success? {
        bedrockPath := r.value;
      }
    }

    /** `stopServer`: the named server, if tracked, is killed and
        forgotten. */
    method StopServer(name: string)
      modifies this
      ensures old(Valid()) ==> Valid()
      ensures servers == old(servers) - {name}
      ensures lastCommitSHA == old(lastCommitSHA) && lastConfig == old(lastConfig)
      ensures bedrockPath == old(bedrockPath)
    {
      if name !in servers {
        return;
      }
      SizeAfterRemove(servers, name);
      servers := servers - {name};
    }

    /** `stopAllServers`: every tracked server is stopped. */
    method StopAllServers()
      requires Valid()
      modifies this
      ensures Valid()
      ensures servers == map[]
      ensures lastCommitSHA == old(lastCommitSHA) && lastConfig == old(lastConfig)
      ensures bedrockPath == old(bedrockPath)
    {
      while servers != map[]
        invariant Valid()
        invariant lastCommitSHA == old(lastCommitSHA) && lastConfig == old(lastConfig)
        invariant bedrockPath == old(bedrockPath)
        decreases |servers|
      {
        var name :| name in servers;
        ghost var before := servers;
        StopServer(name);
        SizeAfterRemove(before, name);
      }
    }

    /** `startServer`: the server is tracked in status "starting" when its
        launch succeeds; otherwise nothing changes. */
    method StartServer(spec: MinecraftServerConfig, launch: Launcher)
      modifies this
      ensures servers == Launch(old(servers), spec, launch)
      ensures lastCommitSHA == old(lastCommitSHA) && lastConfig == old(lastConfig)
      ensures bedrockPath == old(bedrockPath)
    {
      var started := launch(spec);
      match started {
        case None =>
          return;
        case Some(pid) =>
          servers := servers[spec.name := Started(spec, pid)];
      }
    }

    /** The inner loop of `updateServers`'s first loop: whether the name
        occurs in the desired list. */
    static method InConfiguration(desired: seq<MinecraftServerConfig>, name: string) returns (found: bool)
      ensures found <==> InDesired(desired, name)
    {
      found := false;
      for i := 0 to |desired|
        invariant !found ==> forall j :: 0 <= j < i ==> desired[j].name != name
        invariant found ==> InDesired(desired, name)
      {
        if desired[i].name == name {
          found := true;
          break;
        }
      }
    }

    /** The first loop of `updateServers`. */
    method RemoveStaleServers(desired: seq<MinecraftServerConfig>)
      modifies this
      ensures servers == RemoveStale(old(servers), desired)
      ensures lastCommitSHA == old(lastCommitSHA) && lastConfig == old(lastConfig)
      ensures bedrockPath == old(bedrockPath)
    {
      ghost var initial := servers;
      var names := servers.Keys;
      while names != {}
        invariant names <= initial.Keys
        invariant forall n :: n in servers <==> n in initial && (n in names || InDesired(desired, n))
        invariant forall n :: n in servers ==> servers[n] == initial[n]
        invariant lastCommitSHA == old(lastCommitSHA) && lastConfig == old(lastConfig)
        invariant bedrockPath == old(bedrockPath)
        decreases |names|
      {
        var name :| name in names;
        var found := InConfiguration(desired, name);
        if !found {
          StopServer(name);
        }
        names := names - {name};
      }
      assert servers.Keys == RemoveStale(initial, desired).Keys;
    }

    /** `updateServers`: the stale servers are stopped, then the desired
        list is admitted in order under the cap. */
    method UpdateServers(desired: seq<MinecraftServerConfig>, launch: Launcher)
      requires Valid()
      modifies this
      ensures Valid()
      ensures servers == Reconcile(old(servers), desired, config.server.maxInstances, launch)
      ensures lastCommitSHA == old(lastCommitSHA) && lastConfig == old(lastConfig)
      ensures bedrockPath == old(bedrockPath)
    {
      ghost var initial := servers;
      var maxInstances := config.server.maxInstances;
      RemoveStaleServers(desired);
      ghost var kept := servers;
      for i := 0 to |desired|
        invariant Admit(servers, desired[i..], maxInstances, launch) == Admit(kept, desired, maxInstances, launch)
        invariant lastCommitSHA == old(lastCommitSHA) && lastConfig == old(lastConfig)
        invariant bedrockPath == old(bedrockPath)
      {
        ghost var before := servers;
        assert desired[i..][0] == desired[i] && desired[i..][1..] == desired[i + 1..];
        var spec := desired[i];
        if |servers| >= maxInstances {
          continue;
        }
        if spec.name in servers {
          if ServerConfigChanged(servers[spec.name].config, spec) {
            StopServer(spec.name);
            StartServer(spec, launch);
          }
        } else {
          StartServer(spec, launch);
        }
        assert servers == AdmitOne(before, spec, maxInstances, launch);
      }
      assert desired[|desired|..] == [];
      ReconcileKeepsInvariant(initial, desired, maxInstances, launch);
    }

    /** `pollConfiguration`, given what the commit lookup and the document
        fetch return. */
    method PollConfiguration(sha: Result<string, string>, repo: Result<RepoConfig, string>, launch: Launcher)
      returns (outcome: PollOutcome)
      requires Valid()
      modifies this
      ensures Valid()
      ensures Polled(State(), outcome) == Poll(config.server, old(State()), sha, repo, launch)
      ensures bedrockPath == old(bedrockPath)
    {
      if sha.Failure? {
        return ShaFetchFailed;
      }
      var commitSHA := sha.value;
      if config.server.firstRun && lastCommitSHA == "" {
        lastCommitSHA := commitSHA;
        if repo.Failure? {
          return ConfigFetchFailed;
        }
        UpdateServers(repo.value.servers, launch);
        lastConfig := Some(repo.value);
        return Applied;
      }
      if commitSHA == lastCommitSHA {
        return Unchanged;
      }
      if |commitSHA| < 8 {
        return ShortShaPanic;
      }
      if repo.Failure? {
        return ConfigFetchFailed;
      }
      UpdateServers(repo.value.servers, launch);
      lastConfig := Some(repo.value);
      lastCommitSHA := commitSHA;
      return Applied;
    }

    /** `monitorServer`'s report once the process of `name` has exited. */
    method RecordExit(name: string, errored: bool)
      requires Valid()
      modifies this
      ensures Valid()
      ensures servers == Fleet.RecordExit(old(servers), name, errored)
      ensures lastCommitSHA == old(lastCommitSHA) && lastConfig == old(lastConfig)
      ensures bedrockPath == old(bedrockPath)
    {
      RecordExitKeepsInvariant(servers, config.server.maxInstances, name, errored);
      if name in servers {
        var server := servers[name];
        if errored {
          servers := servers[name := server.(status := Crashed)];
        } else {
          servers := servers[name := server.(status := Stopped)];
        }
      }
    }

    /** `Start`: the binary is prepared, then the initial load and one
        poll per tick, and at shutdown every server is stopped. A failed
        preparation ends the run before any poll; a panicking tick ends the
        process with the servers still tracked. */
    method Start(archive: Archive.ArchiveFile, staleLayers: map<int, seq<byte>>, hash: seq<byte> -> string,
                 hostIO: bool, extracted: bool, ticks: seq<Tick>)
      returns (init: Result<string, Archive.ArchiveError>, panicked: bool)
      requires Valid()
      modifies this
      ensures Valid()
      ensures init.Failure? ==> State() == old(State()) && !panicked
      ensures init.Success? ==> panicked == PollAll(config.server, old(State()), ticks).panicked
      ensures init.Success? ==> lastCommitSHA == PollAll(config.server, old(State()), ticks).state.lastCommitSHA
      ensures init.Success? ==> lastConfig == PollAll(config.server, old(State()), ticks).state.lastConfig
      ensures init.Success? && panicked ==> State() == PollAll(config.server, old(State()), ticks).state
      ensures init.Success? && !panicked ==> servers == map[]
    {
      init := InitializeBedrockServer(archive, staleLayers, hash, hostIO, extracted);
      panicked := false;
      if init.Failure? {
        return;
      }
      ghost var start := State();
      var i := 0;
      while i < |ticks|
        invariant 0 <= i <= |ticks|
        invariant Valid()
        invariant PollAll(config.server, State(), ticks[i..]) == PollAll(config.server, start, ticks)
        decreases |ticks| - i
      {
        assert ticks[i..][0] == ticks[i] && ticks[i..][1..] == ticks[i + 1..];
        var outcome := PollConfiguration(ticks[i].sha, ticks[i].repo, ticks[i].launch);
        if outcome == ShortShaPanic {
          panicked := true;
          return;
        }
        i := i + 1;
      }
      assert ticks[i..] == [];
      StopAllServers();
    }

    /** `GetStatus`: the number of tracked servers, how many are counted
        running (status "running") and stopped (any other status), and one
        entry per tracked server, in some order. */
    method GetStatus() returns (status: ManagerStatus)
      ensures status.totalServers == |servers|
      ensures status.running == |RunningNames(servers)|
      ensures status.running + status.stopped == status.totalServers
      ensures status.bedrockPath == bedrockPath
      ensures ListsFleet(status.servers, servers)
    {
      var entries, running, stopped := Summarize(servers);
      status := ManagerStatus(|servers|, running, stopped, entries, bedrockPath);
    }
  }
}
