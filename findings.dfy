/** Four places where manager.go does not do what the surrounding code
    evidently intends: a first-run document that is fetched until it is
    applied, a running count that counts started servers, an exit report
    about the process that exited, and a cap that limits the number of
    servers rather than restarts. For each, a lemma exhibits the behaviour
    as written, and the corrected definition from the Fleet module is
    proved to have the intended property. */
module Findings {
  import opened Common
  import opened Configuration
  import opened Fleet
  import opened FleetProperties

  // ---------------------------------------------------------------------
  // 1. First run: the commit is recorded before its document is fetched

  /** As written: on the first run a failed document fetch still records
      the commit, so every later tick that sees the same commit reports it
      unchanged and the document is never applied, even once it can be
      fetched. */
  lemma FirstRunFetchFailureIsNeverRetried(settings: ServerConfig, st: FleetState, sha: string, why: string,
                                           doc: RepoConfig, launch: Launcher)
    requires settings.firstRun && st.lastCommitSHA == "" && sha != ""
    ensures var p1 := Poll(settings, st, Success(sha), Failure(why), launch);
      && p1.outcome == ConfigFetchFailed
      && Poll(settings, p1.state, Success(sha), Success(doc), launch) == Polled(p1.state, Unchanged)
      && p1.state.servers == st.servers
  {
  }

  /** Corrected: a failed fetch leaves the whole state as it was, in every
      mode. */
  lemma PollRetryingFailureChangesNothing(settings: ServerConfig, st: FleetState, sha: Result<string, string>,
                                          why: string, launch: Launcher)
    ensures PollRetrying(settings, st, sha, Failure(why), launch).state == st
  {
  }

  /** Corrected: the tick after a failed fetch of a new commit applies the
      document of that same commit. */
  lemma PollRetryingRetries(settings: ServerConfig, st: FleetState, sha: string, why: string,
                            doc: RepoConfig, launch: Launcher)
    requires PollRetrying(settings, st, Success(sha), Failure(why), launch).outcome == ConfigFetchFailed
    ensures var p1 := PollRetrying(settings, st, Success(sha), Failure(why), launch);
      PollRetrying(settings, p1.state, Success(sha), Success(doc), launch)
        == Polled(FleetState(Reconcile(st.servers, doc.servers, settings.maxInstances, launch), sha, Some(doc)), Applied)
  {
  }

  /** The correction changes only the failure path: whenever the document
      is fetched, both versions take the same step. */
  lemma PollRetryingAgreesOnSuccess(settings: ServerConfig, st: FleetState, sha: Result<string, string>,
                                    doc: RepoConfig, launch: Launcher)
    ensures PollRetrying(settings, st, sha, Success(doc), launch) == Poll(settings, st, sha, Success(doc), launch)
  {
  }

  // ---------------------------------------------------------------------
  // 2. The status report's "running" counter

  /** As written: no code path sets "running", so the report counts no
      server as running, and a server that was just launched is counted
      among the stopped ones. */
  lemma RunningCountIsAlwaysZero(s: Servers, maxInstances: int)
    requires FleetInvariant(s, maxInstances)
    ensures RunningNames(s) == {}
  {
  }

  lemma LaunchedServerIsNotCountedRunning(s: Servers, spec: MinecraftServerConfig, launch: Launcher, pid: Pid)
    requires launch(spec) == Some(pid)
    ensures spec.name in Launch(s, spec, launch)
    ensures spec.name !in RunningNames(Launch(s, spec, launch))
  {
  }

  /** Corrected: a launched server counts as live until its process
      reports an exit, and then it no longer does. */
  lemma LaunchedServerIsLive(s: Servers, spec: MinecraftServerConfig, launch: Launcher, pid: Pid)
    requires launch(spec) == Some(pid)
    ensures spec.name in LiveNames(Launch(s, spec, launch))
  {
  }

  lemma ExitedServerIsNotLive(s: Servers, name: string, pid: Pid, errored: bool)
    requires name in s && s[name].process == pid
    ensures name !in LiveNames(RecordExitOf(s, name, pid, errored))
    ensures LiveNames(RecordExitOf(s, name, pid, errored)) == LiveNames(s) - {name}
  {
  }

  /** Live servers never outnumber tracked ones. */
  lemma LiveWithinTracked(s: Servers)
    ensures LiveNames(s) <= s.Keys
    ensures |LiveNames(s)| <= |s|
  {
    var live := LiveNames(s);
    var rest := s.Keys - live;
    assert s.Keys == live + rest;
    assert |s.Keys| == |live| + |rest|;
  }

  // ---------------------------------------------------------------------
  // 3. Exit reports are matched by name only

  /** As written: when a changed server is restarted, the old process is
      killed and its exit (an error, since it was killed) is reported
      under the name, which now holds the replacement: the replacement,
      still running, is marked "crashed". */
  lemma PredecessorExitMarksReplacementCrashed(s: Servers, spec: MinecraftServerConfig, maxInstances: int,
                                               launch: Launcher, pid: Pid)
    requires spec.name in s && ServerConfigChanged(s[spec.name].config, spec)
    requires launch(spec) == Some(pid) && pid != s[spec.name].process && maxInstances >= 2
    ensures var r := Reconcile(s, [spec], maxInstances, launch);
      && spec.name in r && r[spec.name].process == pid
      && RecordExit(r, spec.name, true)[spec.name] == Instance(spec, pid, Crashed, spec.port)
  {
    ChangedServerRestarted(s, spec, maxInstances, launch, pid);
  }

  /** Corrected: the predecessor's report changes nothing, and the
      replacement's own report is recorded as before. */
  lemma ReplacementIgnoresPredecessorExit(s: Servers, spec: MinecraftServerConfig, maxInstances: int,
                                          launch: Launcher, pid: Pid, errored: bool)
    requires spec.name in s && ServerConfigChanged(s[spec.name].config, spec)
    requires launch(spec) == Some(pid) && pid != s[spec.name].process && maxInstances >= 2
    ensures var r := Reconcile(s, [spec], maxInstances, launch);
      && RecordExitOf(r, spec.name, s[spec.name].process, errored) == r
      && RecordExitOf(r, spec.name, pid, errored) == RecordExit(r, spec.name, errored)
  {
    ChangedServerRestarted(s, spec, maxInstances, launch, pid);
  }

  // ---------------------------------------------------------------------
  // 4. The cap is checked before the name

  /** As written: with a cap of one and one server running, a change of
      its port is never applied: the tracked instance keeps its old
      description. */
  lemma CapBlocksRestart(inst: Instance, spec: MinecraftServerConfig, launch: Launcher)
    requires inst.config.name == spec.name && ServerConfigChanged(inst.config, spec)
    ensures Reconcile(map[spec.name := inst], [spec], 1, launch) == map[spec.name := inst]
  {
    var s := map[spec.name := inst];
    assert InDesired([spec], spec.name) by { assert [spec][0] == spec; }
    assert RemoveStale(s, [spec]) == s;
    AdmitAtCap(s, [spec], 1, launch);
  }

  /** Corrected: a changed server is restarted at the cap. */
  lemma CapOnNewRestartsAtCap(inst: Instance, spec: MinecraftServerConfig, launch: Launcher, pid: Pid)
    requires inst.config.name == spec.name && ServerConfigChanged(inst.config, spec)
    requires launch(spec) == Some(pid)
    ensures ReconcileCapOnNew(map[spec.name := inst], [spec], 1, launch) == map[spec.name := Started(spec, pid)]
  {
    var s := map[spec.name := inst];
    assert InDesired([spec], spec.name) by { assert [spec][0] == spec; }
    assert RemoveStale(s, [spec]) == s;
    assert s - {spec.name} == map[];
    var one := AdmitOneCapOnNew(s, spec, 1, launch);
    assert [spec][1..] == [];
    assert AdmitCapOnNew(s, [spec], 1, launch) == AdmitCapOnNew(one, [], 1, launch);
  }

  lemma AdmitOneCapOnNewSize(s: Servers, spec: MinecraftServerConfig, maxInstances: int, launch: Launcher)
    ensures |AdmitOneCapOnNew(s, spec, maxInstances, launch)| <= Max(|s|, maxInstances)
  {
    if spec.name in s && ServerConfigChanged(s[spec.name].config, spec) {
      SizeAfterRemove(s, spec.name);
    }
  }

  lemma {:induction false} AdmitCapOnNewSize(s: Servers, d: seq<MinecraftServerConfig>, maxInstances: int, launch: Launcher)
    ensures |AdmitCapOnNew(s, d, maxInstances, launch)| <= Max(|s|, maxInstances)
    decreases |d|
  {
    if d != [] {
      AdmitOneCapOnNewSize(s, d[0], maxInstances, launch);
      AdmitCapOnNewSize(AdmitOneCapOnNew(s, d[0], maxInstances, launch), d[1..], maxInstances, launch);
    }
  }

  /** Corrected: the cap still holds, since a restart replaces the entry
      it stops. */
  lemma ReconcileCapOnNewWithinCap(s: Servers, d: seq<MinecraftServerConfig>, maxInstances: int, launch: Launcher)
    requires WithinCap(s, maxInstances)
    ensures WithinCap(ReconcileCapOnNew(s, d, maxInstances, launch), maxInstances)
  {
    var kept := RemoveStale(s, d);
    SubmapSize(kept, s);
    AdmitCapOnNewSize(kept, d, maxInstances, launch);
  }
}
