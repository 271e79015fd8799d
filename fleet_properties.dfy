/** What the reconciler of the Fleet module guarantees: which names can be
    tracked after a reconciliation, the instance cap, which entries are
    left untouched, order of admission, and the decisions of a poll. */
module FleetProperties {
  import opened Common
  import opened Configuration
  import opened Fleet

  // ---------------------------------------------------------------------
  // Sizes of maps

  lemma SizeAfterRemove(m: Servers, k: string)
    requires k in m
    ensures |m - {k}| == |m| - 1
  {
    assert (m - {k}).Keys == m.Keys - {k};
  }

  lemma SubmapSize(small: Servers, big: Servers)
    requires small.Keys <= big.Keys
    ensures |small| <= |big|
  {
    var extra := big.Keys - small.Keys;
    assert big.Keys == small.Keys + extra;
    assert |big.Keys| == |small.Keys| + |extra|;
  }

  function Max(a: int, b: int): int {
    if a < b then b else a
  }

  /** A single admission never takes the fleet above the larger of its
      size and the cap: a new server is started only below the cap, and a
      restart replaces the entry it stops. */
  lemma AdmitOneSize(s: Servers, spec: MinecraftServerConfig, maxInstances: int, launch: Launcher)
    ensures |AdmitOne(s, spec, maxInstances, launch)| <= Max(|s|, maxInstances)
  {
    if |s| < maxInstances && spec.name in s && ServerConfigChanged(s[spec.name].config, spec) {
      SizeAfterRemove(s, spec.name);
    }
  }

  lemma {:induction false} AdmitSize(s: Servers, d: seq<MinecraftServerConfig>, maxInstances: int, launch: Launcher)
    ensures |Admit(s, d, maxInstances, launch)| <= Max(|s|, maxInstances)
    decreases |d|
  {
    if d != [] {
      AdmitOneSize(s, d[0], maxInstances, launch);
      AdmitSize(AdmitOne(s, d[0], maxInstances, launch), d[1..], maxInstances, launch);
    }
  }

  /** The cap of `updateServers`: a fleet within the cap stays within it. */
  lemma ReconcileWithinCap(s: Servers, d: seq<MinecraftServerConfig>, maxInstances: int, launch: Launcher)
    requires WithinCap(s, maxInstances)
    ensures WithinCap(Reconcile(s, d, maxInstances, launch), maxInstances)
  {
    var kept := RemoveStale(s, d);
    SubmapSize(kept, s);
    AdmitSize(kept, d, maxInstances, launch);
  }

  // ---------------------------------------------------------------------
  // Which names are tracked

  lemma {:induction false} AdmitKeys(s: Servers, d: seq<MinecraftServerConfig>, maxInstances: int, launch: Launcher)
    ensures forall n :: n in Admit(s, d, maxInstances, launch) ==> n in s || InDesired(d, n)
    decreases |d|
  {
    if d != [] {
      var s1 := AdmitOne(s, d[0], maxInstances, launch);
      AdmitKeys(s1, d[1..], maxInstances, launch);
      forall n | n in Admit(s, d, maxInstances, launch)
        ensures n in s || InDesired(d, n)
      {
        if n !in s {
          if n in s1 {
            assert d[0].name == n;
          } else {
            var i :| 0 <= i < |d[1..]| && d[1..][i].name == n;
            assert d[i + 1].name == n;
          }
        }
      }
    }
  }

  /** After `updateServers`, every tracked name is the name of an entry of
      the desired list: a server missing from it is gone, whatever else
      happened. */
  lemma ReconcileKeysDesired(s: Servers, d: seq<MinecraftServerConfig>, maxInstances: int, launch: Launcher)
    ensures forall n :: n in Reconcile(s, d, maxInstances, launch) ==> InDesired(d, n)
  {
    AdmitKeys(RemoveStale(s, d), d, maxInstances, launch);
  }

  // ---------------------------------------------------------------------
  // Where each tracked instance comes from

  /** `inst` is what launching some desired entry named `n` recorded. */
  ghost predicate LaunchedFrom(d: seq<MinecraftServerConfig>, launch: Launcher, n: string, inst: Instance) {
    exists i :: 0 <= i < |d| && d[i].name == n && launch(d[i]) == Some(inst.process)
                && inst == Started(d[i], inst.process)
  }

  /** One admission step either leaves an entry alone or records the
      launch of the entry it admits. */
  lemma AdmitOneProvenance(s: Servers, spec: MinecraftServerConfig, maxInstances: int, launch: Launcher)
    ensures var s1 := AdmitOne(s, spec, maxInstances, launch);
      forall n :: n in s1 && !(n in s && s1[n] == s[n]) ==>
        n == spec.name && launch(spec) == Some(s1[n].process) && s1[n] == Started(spec, s1[n].process)
  {
  }

  lemma {:induction false} AdmitProvenance(s: Servers, d: seq<MinecraftServerConfig>, maxInstances: int, launch: Launcher)
    ensures forall n :: n in Admit(s, d, maxInstances, launch) ==>
              (n in s && Admit(s, d, maxInstances, launch)[n] == s[n])
              || LaunchedFrom(d, launch, n, Admit(s, d, maxInstances, launch)[n])
    decreases |d|
  {
    if d != [] {
      var s1 := AdmitOne(s, d[0], maxInstances, launch);
      var r := Admit(s, d, maxInstances, launch);
      AdmitProvenance(s1, d[1..], maxInstances, launch);
      AdmitOneProvenance(s, d[0], maxInstances, launch);
      forall n | n in r
        ensures (n in s && r[n] == s[n]) || LaunchedFrom(d, launch, n, r[n])
      {
        if LaunchedFrom(d[1..], launch, n, r[n]) {
          var i :| 0 <= i < |d[1..]| && d[1..][i].name == n && launch(d[1..][i]) == Some(r[n].process)
                   && r[n] == Started(d[1..][i], r[n].process);
          assert d[i + 1] == d[1..][i];
        } else if !(n in s && s1[n] == s[n]) {
          assert d[0].name == n && launch(d[0]) == Some(r[n].process) && r[n] == Started(d[0], r[n].process);
        }
      }
    }
  }

  /** Every instance tracked after `updateServers` is either the one that
      was tracked before, untouched, or a server of the desired list that
      launched, filed under its name, in status "starting". */
  lemma ReconcileProvenance(s: Servers, d: seq<MinecraftServerConfig>, maxInstances: int, launch: Launcher)
    ensures var r := Reconcile(s, d, maxInstances, launch);
      forall n :: n in r ==> (n in s && r[n] == s[n]) || LaunchedFrom(d, launch, n, r[n])
  {
    AdmitProvenance(RemoveStale(s, d), d, maxInstances, launch);
  }

  /** Reconciliation keeps the fleet invariant: entries filed under their
      own names, none "running", and no more than the cap. */
  lemma ReconcileKeepsInvariant(s: Servers, d: seq<MinecraftServerConfig>, maxInstances: int, launch: Launcher)
    requires FleetInvariant(s, maxInstances)
    ensures FleetInvariant(Reconcile(s, d, maxInstances, launch), maxInstances)
  {
    ReconcileProvenance(s, d, maxInstances, launch);
    ReconcileWithinCap(s, d, maxInstances, launch);
  }

  // ---------------------------------------------------------------------
  // Unchanged servers are left alone

  lemma {:induction false} AdmitKeepsUnchanged(s: Servers, d: seq<MinecraftServerConfig>, maxInstances: int, launch: Launcher, n: string)
    requires n in s
    requires forall i :: 0 <= i < |d| && d[i].name == n ==> !ServerConfigChanged(s[n].config, d[i])
    ensures n in Admit(s, d, maxInstances, launch) && Admit(s, d, maxInstances, launch)[n] == s[n]
    decreases |d|
  {
    if d != [] {
      var s1 := AdmitOne(s, d[0], maxInstances, launch);
      assert n in s1 && s1[n] == s[n];
      forall i | 0 <= i < |d[1..]| && d[1..][i].name == n
        ensures !ServerConfigChanged(s1[n].config, d[1..][i])
      {
        assert d[1..][i] == d[i + 1];
      }
      AdmitKeepsUnchanged(s1, d[1..], maxInstances, launch, n);
    }
  }

  /** A tracked server that is still desired, and whose port, version and
      world name agree with every desired entry of its name, is left
      exactly as it was: same process, same status. */
  lemma ReconcileKeepsUnchanged(s: Servers, d: seq<MinecraftServerConfig>, maxInstances: int, launch: Launcher, n: string)
    requires n in s && InDesired(d, n)
    requires forall i :: 0 <= i < |d| && d[i].name == n ==> !ServerConfigChanged(s[n].config, d[i])
    ensures n in Reconcile(s, d, maxInstances, launch)
    ensures Reconcile(s, d, maxInstances, launch)[n] == s[n]
  {
    AdmitKeepsUnchanged(RemoveStale(s, d), d, maxInstances, launch, n);
  }

  // ---------------------------------------------------------------------
  // The cap and the order of admission

  /** Once the fleet is at the cap, the rest of the desired list is skipped
      entirely, changed servers included. */
  lemma {:induction false} AdmitAtCap(s: Servers, d: seq<MinecraftServerConfig>, maxInstances: int, launch: Launcher)
    requires |s| >= maxInstances
    ensures Admit(s, d, maxInstances, launch) == s
    decreases |d|
  {
    if d != [] {
      AdmitAtCap(s, d[1..], maxInstances, launch);
    }
  }

  ghost function NamesOf(d: seq<MinecraftServerConfig>): set<string> {
    set i | 0 <= i < |d| :: d[i].name
  }

  ghost predicate DistinctNames(d: seq<MinecraftServerConfig>) {
    forall i, j :: 0 <= i < j < |d| ==> d[i].name != d[j].name
  }

  function Min(a: int, b: int): int {
    if a < b then a else b
  }

  lemma NamesOfPrefix(d: seq<MinecraftServerConfig>, k: nat)
    requires 0 < k <= |d|
    ensures NamesOf(d[..k]) == {d[0].name} + NamesOf(d[1..][..k - 1])
  {
    forall x | x in NamesOf(d[..k])
      ensures x in {d[0].name} + NamesOf(d[1..][..k - 1])
    {
      var i :| 0 <= i < k && d[..k][i].name == x;
      if i > 0 { assert d[1..][..k - 1][i - 1] == d[i]; }
    }
    forall x | x in NamesOf(d[1..][..k - 1])
      ensures x in NamesOf(d[..k])
    {
      var i :| 0 <= i < k - 1 && d[1..][..k - 1][i].name == x;
      assert d[..k][i + 1] == d[i + 1];
    }
    assert d[..k][0] == d[0];
  }

  /** Below the cap, a new server that launches adds exactly one entry. */
  lemma AdmitOneNew(s: Servers, spec: MinecraftServerConfig, maxInstances: int, launch: Launcher)
    requires |s| < maxInstances && spec.name !in s && launch(spec).Some?
    ensures AdmitOne(s, spec, maxInstances, launch).Keys == s.Keys + {spec.name}
    ensures |AdmitOne(s, spec, maxInstances, launch)| == |s| + 1
  {
  }

  /** The hypotheses of AdmitNewInOrder carry over to the rest of the list
      once its first server is admitted. */
  lemma NewTail(s: Servers, d: seq<MinecraftServerConfig>, maxInstances: int, launch: Launcher)
    requires d != [] && |s| < maxInstances && DistinctNames(d)
    requires forall i :: 0 <= i < |d| ==> d[i].name !in s && launch(d[i]).Some?
    ensures |AdmitOne(s, d[0], maxInstances, launch)| <= maxInstances
    ensures DistinctNames(d[1..])
    ensures forall i :: 0 <= i < |d[1..]| ==>
              d[1..][i].name !in AdmitOne(s, d[0], maxInstances, launch) && launch(d[1..][i]).Some?
  {
    AdmitOneNew(s, d[0], maxInstances, launch);
    var rest := d[1..];
    forall i, j | 0 <= i < j < |rest| ensures rest[i].name != rest[j].name {
      assert rest[i] == d[i + 1] && rest[j] == d[j + 1];
    }
    forall i | 0 <= i < |rest|
      ensures rest[i].name !in AdmitOne(s, d[0], maxInstances, launch) && launch(rest[i]).Some?
    {
      assert rest[i] == d[i + 1];
    }
  }

  /** The inductive step of AdmitNewInOrder, on the names alone: the first
      server's name followed by the names the tail admits are the names
      the whole list admits. */
  lemma NamesStep(before: set<string>, after: set<string>, d: seq<MinecraftServerConfig>, room: int)
    requires d != [] && room > 0 && after == before + {d[0].name}
    ensures after + NamesOf(d[1..][..Min(|d| - 1, room - 1)]) == before + NamesOf(d[..Min(|d|, room)])
  {
    var k := Min(|d|, room);
    var tail := NamesOf(d[1..][..k - 1]);
    NamesOfPrefix(d, k);
    UnionStep(before, d[0].name, tail, after, after + tail, NamesOf(d[..k]));
  }

  lemma AdmitUnfold(s: Servers, d: seq<MinecraftServerConfig>, maxInstances: int, launch: Launcher)
    requires d != []
    ensures Admit(s, d, maxInstances, launch) == Admit(AdmitOne(s, d[0], maxInstances, launch), d[1..], maxInstances, launch)
  {
  }

  lemma UnionStep(before: set<string>, x: string, tail: set<string>, after: set<string>,
                  admitted: set<string>, prefix: set<string>)
    requires after == before + {x} && admitted == after + tail && prefix == {x} + tail
    ensures admitted == before + prefix
  {
  }

  /** The inductive step of AdmitNewInOrder: what the tail admits after
      the first server determines what the whole list admits. */
  lemma AdmitNewCons(s: Servers, d: seq<MinecraftServerConfig>, maxInstances: int, launch: Launcher)
    requires d != [] && |s| < maxInstances
    requires d[0].name !in s && launch(d[0]).Some?
    requires var s1 := AdmitOne(s, d[0], maxInstances, launch);
      Admit(s1, d[1..], maxInstances, launch).Keys
      == s1.Keys + NamesOf(d[1..][..Min(|d[1..]|, maxInstances - |s1|)])
    ensures Admit(s, d, maxInstances, launch).Keys == s.Keys + NamesOf(d[..Min(|d|, maxInstances - |s|)])
  {
    var s1 := AdmitOne(s, d[0], maxInstances, launch);
    AdmitUnfold(s, d, maxInstances, launch);
    AdmitOneNew(s, d[0], maxInstances, launch);
    assert Min(|d[1..]|, maxInstances - |s1|) == Min(|d| - 1, maxInstances - |s| - 1);
    NamesStep(s.Keys, s1.Keys, d, maxInstances - |s|);
  }

  /** Earlier entries win: when every server of the desired list is new,
      has a name of its own and launches, exactly the first ones that fit
      under the cap are started. */
  lemma {:induction false} AdmitNewInOrder(s: Servers, d: seq<MinecraftServerConfig>, maxInstances: int, launch: Launcher)
    requires |s| <= maxInstances
    requires DistinctNames(d)
    requires forall i :: 0 <= i < |d| ==> d[i].name !in s && launch(d[i]).Some?
    ensures Admit(s, d, maxInstances, launch).Keys == s.Keys + NamesOf(d[..Min(|d|, maxInstances - |s|)])
    decreases |d|
  {
    if d == [] {
      assert d[..0] == [];
    } else if |s| >= maxInstances {
      AdmitAtCap(s, d, maxInstances, launch);
      assert d[..0] == [];
    } else {
      NewTail(s, d, maxInstances, launch);
      AdmitNewInOrder(AdmitOne(s, d[0], maxInstances, launch), d[1..], maxInstances, launch);
      AdmitNewCons(s, d, maxInstances, launch);
    }
  }

  /** The cap example: with a cap of two and three new servers A, B, C in
      that order, exactly A and B are started and C is skipped. */
  lemma CapTwoOfThree(a: MinecraftServerConfig, b: MinecraftServerConfig, c: MinecraftServerConfig, launch: Launcher)
    requires a.name != b.name && b.name != c.name && a.name != c.name
    requires launch(a).Some? && launch(b).Some? && launch(c).Some?
    ensures Reconcile(map[], [a, b, c], 2, launch).Keys == {a.name, b.name}
  {
    var d := [a, b, c];
    var empty: Servers := map[];
    ThreeNewServers(a, b, c, launch);
    assert RemoveStale(empty, d) == empty;
    AdmitNewInOrder(empty, d, 2, launch);
    assert Min(|d|, 2 - 0) == 2;
    assert d[..2] == [a, b];
    NamesOfPair(a, b);
  }

  lemma ThreeNewServers(a: MinecraftServerConfig, b: MinecraftServerConfig, c: MinecraftServerConfig, launch: Launcher)
    requires a.name != b.name && b.name != c.name && a.name != c.name
    requires launch(a).Some? && launch(b).Some? && launch(c).Some?
    ensures DistinctNames([a, b, c])
    ensures forall i :: 0 <= i < 3 ==> launch([a, b, c][i]).Some?
  {
    var d := [a, b, c];
    assert d[0] == a && d[1] == b && d[2] == c;
  }

  lemma NamesOfPair(a: MinecraftServerConfig, b: MinecraftServerConfig)
    ensures NamesOf([a, b]) == {a.name, b.name}
  {
    assert [a, b][0] == a && [a, b][1] == b;
  }

  /** The restart example: a tracked server whose port (or version, or
      world) changed is stopped and started again from its new description
      when it is the only desired server and the cap leaves room. */
  lemma ChangedServerRestarted(s: Servers, spec: MinecraftServerConfig, maxInstances: int, launch: Launcher, pid: Pid)
    requires spec.name in s && ServerConfigChanged(s[spec.name].config, spec)
    requires launch(spec) == Some(pid) && maxInstances >= 2
    ensures Reconcile(s, [spec], maxInstances, launch) == map[spec.name := Started(spec, pid)]
  {
    var kept := RemoveStale(s, [spec]);
    assert InDesired([spec], spec.name) by { assert [spec][0] == spec; }
    assert forall n :: InDesired([spec], n) ==> n == spec.name;
    assert kept.Keys == {spec.name};
    assert kept == map[spec.name := s[spec.name]];
    assert |kept| == 1;
    assert (kept - {spec.name}) == map[];
    var one := AdmitOne(kept, spec, maxInstances, launch);
    assert one == Launch(map[], spec, launch);
    assert Launch(map[], spec, launch) == map[][spec.name := Started(spec, pid)];
    assert [spec][1..] == [];
    assert Admit(kept, [spec], maxInstances, launch) == Admit(one, [], maxInstances, launch);
  }

  /** The removal example: with A and B tracked and only A desired, B is
      stopped and A, unchanged, keeps its process and status. */
  lemma RemovalLeavesUnchangedAlone(s: Servers, a: MinecraftServerConfig, maxInstances: int, launch: Launcher, b: string)
    requires a.name in s && b in s && b != a.name
    requires !ServerConfigChanged(s[a.name].config, a)
    ensures b !in Reconcile(s, [a], maxInstances, launch)
    ensures a.name in Reconcile(s, [a], maxInstances, launch)
    ensures Reconcile(s, [a], maxInstances, launch)[a.name] == s[a.name]
  {
    ReconcileKeysDesired(s, [a], maxInstances, launch);
    assert InDesired([a], a.name) by { assert [a][0] == a; }
    ReconcileKeepsUnchanged(s, [a], maxInstances, launch, a.name);
  }

  // ---------------------------------------------------------------------
  // Polling

  /** A failed commit lookup changes nothing. */
  lemma PollShaFailureChangesNothing(settings: ServerConfig, st: FleetState, sha: Result<string, string>,
                                     repo: Result<RepoConfig, string>, launch: Launcher)
    requires sha.Failure?
    ensures Poll(settings, st, sha, repo, launch) == Polled(st, ShaFetchFailed)
  {
  }

  /** Outside the first run, a commit equal to the last one seen changes
      nothing; nor does a changed commit id too short to print, since the
      tick panics before fetching. */
  lemma PollSkipsSeenCommit(settings: ServerConfig, st: FleetState, sha: string,
                            repo: Result<RepoConfig, string>, launch: Launcher)
    requires !(settings.firstRun && st.lastCommitSHA == "")
    ensures sha == st.lastCommitSHA ==> Poll(settings, st, Success(sha), repo, launch) == Polled(st, Unchanged)
    ensures sha != st.lastCommitSHA && |sha| < 8 ==>
              Poll(settings, st, Success(sha), repo, launch) == Polled(st, ShortShaPanic)
  {
  }

  /** A failed document fetch leaves the fleet and the last document alone;
      the last commit is kept too, except on the first run, where it was
      already recorded before the fetch. */
  lemma PollConfigFailure(settings: ServerConfig, st: FleetState, sha: string,
                          repo: Result<RepoConfig, string>, launch: Launcher)
    requires repo.Failure?
    ensures var p := Poll(settings, st, Success(sha), repo, launch);
      && p.state.servers == st.servers
      && p.state.lastConfig == st.lastConfig
      && p.state.lastCommitSHA == (if settings.firstRun && st.lastCommitSHA == "" then sha else st.lastCommitSHA)
  {
  }

  /** A tick that applies a document reconciles the fleet with it and
      records the commit and the document. Outside the first run this
      needs a new commit id of at least 8 characters. */
  lemma PollApplied(settings: ServerConfig, st: FleetState, sha: Result<string, string>,
                    repo: Result<RepoConfig, string>, launch: Launcher)
    requires Poll(settings, st, sha, repo, launch).outcome == Applied
    ensures sha.Success? && repo.Success?
    ensures var p := Poll(settings, st, sha, repo, launch);
      && p.state.servers == Reconcile(st.servers, repo.value.servers, settings.maxInstances, launch)
      && p.state.lastCommitSHA == sha.value
      && p.state.lastConfig == Some(repo.value)
    ensures !(settings.firstRun && st.lastCommitSHA == "") ==>
              sha.value != st.lastCommitSHA && |sha.value| >= 8
  {
  }

  /** Idempotence: after a tick applied commit `sha`, a second tick that
      sees the same commit does nothing at all, whatever the document
      source would now return (unless the commit id is empty, which keeps
      first-run mode on). */
  lemma SecondPollIsNoop(settings: ServerConfig, st: FleetState, sha: string,
                         repo: Result<RepoConfig, string>, repo2: Result<RepoConfig, string>,
                         launch: Launcher, launch2: Launcher)
    requires Poll(settings, st, Success(sha), repo, launch).outcome == Applied
    requires settings.firstRun ==> sha != ""
    ensures var p := Poll(settings, st, Success(sha), repo, launch);
      Poll(settings, p.state, Success(sha), repo2, launch2) == Polled(p.state, Unchanged)
  {
  }

  /** Polling keeps the fleet invariant. */
  lemma PollKeepsInvariant(settings: ServerConfig, st: FleetState, sha: Result<string, string>,
                           repo: Result<RepoConfig, string>, launch: Launcher)
    requires FleetInvariant(st.servers, settings.maxInstances)
    ensures FleetInvariant(Poll(settings, st, sha, repo, launch).state.servers, settings.maxInstances)
  {
    if repo.Success? {
      ReconcileKeepsInvariant(st.servers, repo.value.servers, settings.maxInstances, launch);
    }
  }

  /** Any run of ticks keeps the fleet invariant. */
  lemma {:induction false} PollAllKeepsInvariant(settings: ServerConfig, st: FleetState, ticks: seq<Tick>)
    requires FleetInvariant(st.servers, settings.maxInstances)
    ensures FleetInvariant(PollAll(settings, st, ticks).state.servers, settings.maxInstances)
    decreases |ticks|
  {
    if ticks != [] {
      PollKeepsInvariant(settings, st, ticks[0].sha, ticks[0].repo, ticks[0].launch);
      var p := Poll(settings, st, ticks[0].sha, ticks[0].repo, ticks[0].launch);
      PollAllKeepsInvariant(settings, p.state, ticks[1..]);
    }
  }

  /** Ticks that all see the commit already applied change nothing. */
  lemma {:induction false} RepeatedCommitIsIdle(settings: ServerConfig, st: FleetState, ticks: seq<Tick>)
    requires !(settings.firstRun && st.lastCommitSHA == "")
    requires forall i :: 0 <= i < |ticks| ==> ticks[i].sha == Success(st.lastCommitSHA) || ticks[i].sha.Failure?
    ensures PollAll(settings, st, ticks) == Ran(st, false)
    decreases |ticks|
  {
    if ticks != [] {
      forall i | 0 <= i < |ticks[1..]|
        ensures ticks[1..][i].sha == Success(st.lastCommitSHA) || ticks[1..][i].sha.Failure?
      {
        assert ticks[1..][i] == ticks[i + 1];
      }
      RepeatedCommitIsIdle(settings, st, ticks[1..]);
    }
  }

  /** A new manager has seen no commit and tracks nothing. */
  lemma InitialStateIsEmpty(maxInstances: int)
    ensures InitialState.lastCommitSHA == "" && InitialState.servers == map[]
    ensures FleetInvariant(InitialState.servers, maxInstances)
  {
  }

  // ---------------------------------------------------------------------
  // Exit reports

  /** An exit report keeps the invariant: it only moves an entry to
      "stopped" or "crashed". */
  lemma RecordExitKeepsInvariant(s: Servers, maxInstances: int, name: string, errored: bool)
    requires FleetInvariant(s, maxInstances)
    ensures FleetInvariant(RecordExit(s, name, errored), maxInstances)
  {
    assert RecordExit(s, name, errored).Keys == s.Keys;
  }
}
