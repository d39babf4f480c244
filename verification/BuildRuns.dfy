/** Whole runs over one job directory: any number of job objects, loaded at any time and possibly
    stale, that prepare, execute and clean up builds in any order. */
module BuildRuns {
  import opened Text
  import opened Numbers
  import opened ParamCodec
  import opened Builds
  import opened JobStore
  import opened BuildLaws
  import JobRunner

  /** jobs are the job objects by an id; given are the numbers prepare_build has given out so far. */
  datatype World = World(disk: Listing, jobs: map<nat, Maps>, given: seq<nat>)

  datatype Step =
    | Load(id: nat)
    | Prepare(id: nat, params: seq<Pair>, session: string, f: PrepareFaults, number: Option<nat>)
    | Execute(id: nat, n: nat, force: bool, env: ExecuteEnv, lines: seq<string>, before: ExitCode)
    | Cleanup(id: nat, stuck: Stuck)

  /** What one step does; listing the directory and creating the build in it is one step. */
  ghost predicate Takes(c: Config, w: World, step: Step, w': World)
  {
    match step
    case Load(id) => w' == w.(jobs := w.jobs[id := Reload(w.disk)])
    case Prepare(id, params, session, f, number) =>
      && id in w.jobs && id in w'.jobs && w'.jobs == w.jobs[id := w'.jobs[id]]
      && Prepared(w.jobs[id], w.disk, w'.jobs[id], w'.disk, number, c.script, params, session, f)
      && w'.given == if number.Some? then w.given + [number.value] else w.given
    case Execute(id, n, force, env, lines, before) =>
      && id in w.jobs && n in w.jobs[id].pending && Printed(env, lines)
      && w' == World(ExecuteListing(w.jobs[id], w.disk, n, force, env, lines),
                     w.jobs[id := ExecuteMaps(w.jobs[id], w.disk, n, force, env, before)], w.given)
    case Cleanup(id, stuck) =>
      && id in w.jobs
      && var r := Cleaned(w.jobs[id], w.disk, c, stuck);
      && w' == World(r.1, w.jobs[id := r.0], w.given)
  }

  /** There is a free six-digit number left for a prepare. */
  ghost predicate HasRoom(w: World, step: Step) { step.Prepare? ==> NextNumber(w.disk) <= MAX_BUILD }

  predicate Ascending(s: seq<nat>) { forall i, j :: 0 <= i < j < |s| ==> s[i] < s[j] }

  predicate Finished(m: Maps, n: nat) { n in m.successful || n in m.broken }

  /** A job object knows no number that is still to come; a plain file with a build name, which
      load_job takes for a pending build, is the exception. */
  ghost predicate Behind(m: Maps, l: Listing)
  {
    && (forall n: nat :: Finished(m, n) ==> n < NextNumber(l))
    && (forall n :: n in m.pending ==> n < NextNumber(l) || HasFile(l, NumberString(n)))
  }

  /** The invariant of every run. */
  ghost predicate Inv(w: World)
  {
    && Ascending(w.given) && (forall n :: n in w.given ==> n < NextNumber(w.disk))
    && (forall id :: id in w.jobs ==> Partition(w.jobs[id]) && Behind(w.jobs[id], w.disk))
  }

  // ---- how the steps change the directory ----------------------------------------------

  /** l' may have fewer plain files with build names, or new build directories, but no new plain file
      and no smaller next number. */
  ghost predicate Grows(l: Listing, l': Listing)
  {
    && NextNumber(l) <= NextNumber(l')
    && (forall n: nat :: HasFile(l, NumberString(n)) ==> HasFile(l', NumberString(n)) || n < NextNumber(l'))
  }

  lemma GreatestIs(s: set<nat>, m: int)
    requires m >= -1 && (m >= 0 ==> m in s) && (forall n :: n in s ==> n <= m)
    ensures Greatest(s) == m
  {
  }

  lemma DirsAfterPut(l: Listing, n: nat, files: map<string, string>)
    requires n <= MAX_BUILD
    ensures BuildDirs(l[NumberString(n) := Directory(files)]) == BuildDirs(l) + {n}
  {
    forall k: nat
      ensures k in BuildDirs(l[NumberString(n) := Directory(files)]) <==> k in BuildDirs(l) + {n}
    {
      NumberStringInjective(n, k);
    }
  }

  /** A new build directory makes the next number the following one. */
  lemma PutGrows(l: Listing, files: map<string, string>)
    requires NextNumber(l) <= MAX_BUILD && !HasFile(l, NumberString(NextNumber(l)))
    ensures var l' := l[NumberString(NextNumber(l)) := Directory(files)];
            NextNumber(l') == NextNumber(l) + 1 && Grows(l, l')
  {
    var n := NextNumber(l);
    DirsAfterPut(l, n, files);
    GreatestIs(BuildDirs(l) + {n}, n);
  }

  /** Exactly up to 999999: beyond it the new directory has no build name, and the scan gives the same
      number again. */
  lemma NumberAdvancesExactly(m: Maps, l: Listing, m': Maps, l': Listing, number: Option<nat>,
                              script: string, params: seq<Pair>, session: string,
                              f: PrepareFaults)
    requires Prepared(m, l, m', l', number, script, params, session, f) && number.Some?
    ensures NextNumber(l') == NextNumber(l) + 1 <==> NextNumber(l) <= MAX_BUILD
    ensures NextNumber(l) > MAX_BUILD ==> NextNumber(l') == NextNumber(l)
  {
    var n := NextNumber(l);
    if n <= MAX_BUILD {
      PutGrows(l, Filled(FilesIn(l, NumberString(n)), l, script, params, session));
    } else {
      forall k: nat
        ensures k in BuildDirs(l') <==> k in BuildDirs(l)
      {
        NumberStringInjective(n, k);
      }
      assert BuildDirs(l') == BuildDirs(l);
    }
  }

  /** Rewriting the files of directories changes neither numbers nor plain files. */
  lemma SameKinds(l: Listing, l': Listing)
    requires l'.Keys == l.Keys && forall name :: name in l ==> l'[name].Directory? == l[name].Directory?
    ensures Grows(l, l') && NextNumber(l') == NextNumber(l)
  {
    assert BuildDirs(l') == BuildDirs(l);
  }

  lemma ExecuteGrows(m: Maps, l: Listing, n: nat, force: bool, env: ExecuteEnv,
                     lines: seq<string>)
    ensures Grows(l, ExecuteListing(m, l, n, force, env, lines))
    ensures NextNumber(ExecuteListing(m, l, n, force, env, lines)) == NextNumber(l)
  {
    SameKinds(l, RunListing(l, Looked(m, n).pending[n], env, lines));
    SameKinds(l, l);
  }

  lemma DirsAfterRemove(l: Listing, gone: map<nat, string>)
    requires NamedBySix(gone)
    ensures BuildDirs(l - gone.Values) == BuildDirs(l) - gone.Keys
  {
    forall n: nat
      ensures n in BuildDirs(l - gone.Values) <==> n in BuildDirs(l) - gone.Keys
    {
      GoneByName(gone, n);
    }
  }

  /** Removing builds that are all below one that stays known does not touch the greatest number. */
  lemma DropGrows(b: map<nat, string>, l: Listing, left: map<nat, string>)
    requires NamedBySix(b) && DropsOldest(b, left) && left != map[]
    requires forall n :: n in b ==> n < NextNumber(l)
    ensures NextNumber(l - Gone(b, left)) == NextNumber(l) && Grows(l, l - Gone(b, left))
  {
    GoneValues(b, left);
    var gone := b - left.Keys;
    var k :| k in left;
    assert forall n :: n in gone ==> n < k && n < NextNumber(l) - 1;
    RemoveGrows(l, gone);
  }

  lemma RemoveGrows(l: Listing, gone: map<nat, string>)
    requires NamedBySix(gone) && forall n :: n in gone ==> n < NextNumber(l) - 1
    ensures NextNumber(l - gone.Values) == NextNumber(l) && Grows(l, l - gone.Values)
  {
    DirsAfterRemove(l, gone);
    GreatestIs(BuildDirs(l - gone.Values), NextNumber(l) - 1);
    forall n: nat | HasFile(l, NumberString(n)) && !HasFile(l - gone.Values, NumberString(n))
      ensures n < NextNumber(l)
    {
      GoneByName(gone, n);
    }
  }

  /** A removal that fails leaves the build directory, so the number stays taken. */
  lemma FailedGrows(l: Listing, l': Listing, dir: string, stuck: Stuck)
    requires FailedAt(l, l', dir, stuck)
    ensures NextNumber(l') == NextNumber(l) && Grows(l, l')
  {
    SameKinds(l, l');
  }

  lemma PruneGrows(b: map<nat, string>, l: Listing, keep: nat, stuck: Stuck)
    requires keep >= 1 && NamedBySix(b) && (forall n :: n in b ==> n < NextNumber(l))
    ensures var l' := Prune(b, l, Excess(b, keep), stuck).1;
            NextNumber(l') == NextNumber(l) && Grows(l, l')
  {
    var count := Excess(b, keep);
    var r := Prune(b, l, count, stuck);
    PruneLeaves(b, l, count, stuck);
    PruneCounts(b, l, count, stuck);
    if b == map[] {
      assert count == 0;
    } else {
      assert |r.0| > 0;
      DropGrows(b, l, r.0);
      if r.2 {
        PruneRemoves(b, l, count, stuck);
      } else {
        PruneFails(b, l, count, stuck);
        FailedGrows(l - Gone(b, r.0), r.1, r.0[First(r.0)], stuck);
      }
    }
  }

  lemma FirstGrows(m: Maps, l: Listing, c: Config, stuck: Stuck, l1: Listing)
    requires c.keepSuccessful >= 1 && Partition(m) && (forall n: nat :: Finished(m, n) ==> n < NextNumber(l))
    requires l1 == CleanupSuccessful(m, l, c, stuck).1
    ensures NextNumber(l1) == NextNumber(l) && Grows(l, l1)
  {
    assert forall n :: n in m.successful ==> Finished(m, n);
    PruneGrows(m.successful, l, c.keepSuccessful, stuck);
  }

  lemma SecondGrows(m: Maps, l: Listing, c: Config, stuck: Stuck, l1: Listing)
    requires c.keepBroken >= 1 && Partition(m) && (forall n: nat :: Finished(m, n) ==> n < NextNumber(l))
    requires l1 == CleanupBroken(m, l, c, stuck).1
    ensures NextNumber(l1) == NextNumber(l) && Grows(l, l1)
  {
    assert forall n :: n in m.broken ==> Finished(m, n);
    PruneGrows(m.broken, l, c.keepBroken, stuck);
  }

  /** With both keep counts at least 1 no cleanup, however old the maps it works from, ever removes the
      build directory with the greatest number. */
  lemma CleanupKeepsGreatest(m: Maps, l: Listing, c: Config, stuck: Stuck)
    requires c.keepSuccessful >= 1 && c.keepBroken >= 1
    requires Partition(m) && (forall n: nat :: Finished(m, n) ==> n < NextNumber(l))
    ensures NextNumber(Cleaned(m, l, c, stuck).1) == NextNumber(l) && Grows(l, Cleaned(m, l, c, stuck).1)
  {
    var l1 := CleanupSuccessful(m, l, c, stuck).1;
    FirstGrows(m, l, c, stuck, l1);
    SecondGrows(m, l1, c, stuck, CleanupBroken(m, l1, c, stuck).1);
  }

  // ---- how the steps change the maps ---------------------------------------------------

  lemma ReloadBehind(l: Listing)
    ensures Behind(Reload(l), l)
  {
    BuildsAre(l, Successful);
    BuildsAre(l, Broken);
    BuildsAre(l, Pending);
    NoNumber();
    forall n: nat | n in Reload(l).pending || Finished(Reload(l), n)
      ensures n < NextNumber(l) || (n in Reload(l).pending && HasFile(l, NumberString(n)))
    {
      if l[NumberString(n)].Directory? { assert n in BuildDirs(l); }
    }
    ReloadPartition(l);
  }

  lemma BehindGrows(m: Maps, l: Listing, l': Listing)
    requires Behind(m, l) && Grows(l, l')
    ensures Behind(m, l')
  {
  }

  lemma ExecuteBehind(m: Maps, l: Listing, n: nat, force: bool, env: ExecuteEnv, before: ExitCode)
    requires Partition(m) && Behind(m, l) && n in m.pending
    ensures Partition(ExecuteMaps(m, l, n, force, env, before)) && Behind(ExecuteMaps(m, l, n, force, env, before), l)
  {
    var m' := ExecuteMaps(m, l, n, force, env, before);
    ExecuteMovesOne(m, l, n, force, env, before);
    if m' != m {
      StartedIsBuild(l, n, force, env);
      MovedBehind(m, l, m', n);
    }
  }

  lemma StartedIsBuild(l: Listing, n: nat, force: bool, env: ExecuteEnv)
    requires n <= MAX_BUILD && Starts(l, NumberString(n), force, env)
    ensures n < NextNumber(l)
  {
    NumberStringRoundTrip(n);
    assert n in BuildDirs(l);
  }

  lemma MovedBehind(m: Maps, l: Listing, m': Maps, n: nat)
    requires Behind(m, l) && n < NextNumber(l) && m'.pending == m.pending - {n}
    requires m'.successful.Keys <= m.successful.Keys + {n} && m'.broken.Keys <= m.broken.Keys + {n}
    ensures Behind(m', l)
  {
    forall k: nat | Finished(m', k)
      ensures k < NextNumber(l)
    {
      assert k == n || Finished(m, k);
    }
  }

  lemma CleanupBehind(m: Maps, l: Listing, c: Config, stuck: Stuck)
    requires Partition(m) && Behind(m, l)
    ensures Partition(Cleaned(m, l, c, stuck).0) && Behind(Cleaned(m, l, c, stuck).0, l)
  {
    var r := Cleaned(m, l, c, stuck);
    CleanupKeepsNewest(m, l, c, stuck);
    assert r.0.successful.Keys <= m.successful.Keys && r.0.broken.Keys <= m.broken.Keys;
    assert forall n: nat :: Finished(r.0, n) ==> Finished(m, n);
  }

  // ---- runs ----------------------------------------------------------------------------

  ghost predicate Run(c: Config, l: Listing, worlds: seq<World>, steps: seq<Step>)
  {
    && |worlds| == |steps| + 1 && worlds[0] == World(l, map[], [])
    && forall i :: 0 <= i < |steps| ==> Takes(c, worlds[i], steps[i], worlds[i + 1])
  }

  /** A run in which each prepare finds a six-digit number left. */
  ghost predicate RunWithRoom(c: Config, l: Listing, worlds: seq<World>, steps: seq<Step>)
  {
    Run(c, l, worlds, steps) && forall i :: 0 <= i < |steps| ==> HasRoom(worlds[i], steps[i])
  }

  /** One step keeps the invariant and never lowers the next number. */
  lemma StepKeepsInv(c: Config, w: World, step: Step, w': World)
    requires c.keepSuccessful >= 1 && c.keepBroken >= 1
    requires Inv(w) && Takes(c, w, step, w') && HasRoom(w, step)
    ensures Inv(w') && NextNumber(w.disk) <= NextNumber(w'.disk)
    ensures w'.given == w.given || exists n :: w'.given == w.given + [n] && n >= NextNumber(w.disk)
  {
    match step
    case Load(id) =>
      ReloadPartition(w.disk);
      ReloadBehind(w.disk);
    case Prepare(id, params, session, f, number) => PrepareKeepsInv(c, w, step, w');
    case Execute(id, n, force, env, lines, before) =>
      var m := w.jobs[id];
      ExecuteGrows(m, w.disk, n, force, env, lines);
      ExecuteBehind(m, w.disk, n, force, env, before);
      BehindGrows(w'.jobs[id], w.disk, w'.disk);
      JobsBehind(w, w', id);
    case Cleanup(id, stuck) =>
      CleanupKeepsGreatest(w.jobs[id], w.disk, c, stuck);
      CleanupBehind(w.jobs[id], w.disk, c, stuck);
      BehindGrows(w'.jobs[id], w.disk, w'.disk);
      JobsBehind(w, w', id);
  }

  /** The job objects a step does not touch stay behind a directory that grows. */
  lemma JobsBehind(w: World, w': World, id: nat)
    requires Inv(w) && Grows(w.disk, w'.disk) && id in w'.jobs && w'.jobs == w.jobs[id := w'.jobs[id]]
    requires Partition(w'.jobs[id]) && Behind(w'.jobs[id], w'.disk)
    ensures forall k :: k in w'.jobs ==> Partition(w'.jobs[k]) && Behind(w'.jobs[k], w'.disk)
  {
    forall k | k in w'.jobs
      ensures Partition(w'.jobs[k]) && Behind(w'.jobs[k], w'.disk)
    {
      if k != id { BehindGrows(w.jobs[k], w.disk, w'.disk); }
    }
  }

  /** The next number is new to a job object that is behind, and after the prepare it is behind again. */
  lemma PrepareBehind(m: Maps, l: Listing, m': Maps, l': Listing, number: Option<nat>,
                      script: string, params: seq<Pair>, session: string, f: PrepareFaults)
    requires Partition(m) && Behind(m, l) && NextNumber(l) <= MAX_BUILD
    requires Prepared(m, l, m', l', number, script, params, session, f)
    ensures Grows(l, l') && (number.Some? ==> NextNumber(l') == NextNumber(l) + 1)
    ensures Partition(m') && Behind(m', l')
  {
    var n := NextNumber(l);
    if number.Some? {
      PutGrows(l, Filled(FilesIn(l, NumberString(n)), l, script, params, session));
      assert !Finished(m, n) && n !in m.pending;
      PreparePartition(m, l, m', l', number, script, params, session, f);
      BehindGrows(m, l, l');
      PendingBehind(m, l', m', n);
    } else {
      if !f.createDir && !HasFile(l, NumberString(n)) {
        var dir := NumberString(n);
        var files := FilesLeft(FilesIn(l, dir), l, script, params, PrepareError(l, script, dir, f));
        PutGrows(l, files);
      }
      BehindGrows(m, l, l');
    }
  }

  lemma PendingBehind(m: Maps, l: Listing, m': Maps, n: nat)
    requires Behind(m, l) && n < NextNumber(l) && m' == m.(pending := m.pending[n := NumberString(n)])
    ensures Behind(m', l)
  {
    assert forall k: nat :: Finished(m', k) <==> Finished(m, k);
  }

  lemma AscendingSnoc(s: seq<nat>, n: nat)
    requires Ascending(s) && forall k :: k in s ==> k < n
    ensures Ascending(s + [n])
  {
    forall i, j | 0 <= i < j < |s + [n]|
      ensures (s + [n])[i] < (s + [n])[j]
    {
      assert s[i] in s;
    }
  }

  lemma PrepareKeepsInv(c: Config, w: World, step: Step, w': World)
    requires Inv(w) && step.Prepare? && Takes(c, w, step, w') && HasRoom(w, step)
    ensures Inv(w') && NextNumber(w.disk) <= NextNumber(w'.disk)
    ensures w'.given == w.given || exists n :: w'.given == w.given + [n] && n >= NextNumber(w.disk)
  {
    PrepareBehind(w.jobs[step.id], w.disk, w'.jobs[step.id], w'.disk, step.number, c.script, step.params,
                  step.session, step.f);
    JobsBehind(w, w', step.id);
    if step.number.Some? { AscendingSnoc(w.given, step.number.value); }
  }

  lemma {:induction false} RunKeepsInv(c: Config, l: Listing, worlds: seq<World>, steps: seq<Step>, i: nat)
    requires c.keepSuccessful >= 1 && c.keepBroken >= 1
    requires RunWithRoom(c, l, worlds, steps) && i <= |steps|
    ensures Inv(worlds[i]) && NextNumber(l) <= NextNumber(worlds[i].disk)
    ensures forall n :: n in worlds[i].given ==> n >= NextNumber(l)
  {
    if i > 0 {
      RunKeepsInv(c, l, worlds, steps, i - 1);
      assert Takes(c, worlds[i - 1], steps[i - 1], worlds[i]);
      StepKeepsInv(c, worlds[i - 1], steps[i - 1], worlds[i]);
    }
  }

  /** The numbers prepare_build gives out over a whole run only grow and start above every build that
      was there, although cleanups delete builds and may work from stale maps. */
  lemma NumbersOnlyGrow(c: Config, l: Listing, worlds: seq<World>, steps: seq<Step>)
    requires c.keepSuccessful >= 1 && c.keepBroken >= 1
    requires RunWithRoom(c, l, worlds, steps)
    ensures Ascending(worlds[|steps|].given)
    ensures forall n, d :: n in worlds[|steps|].given && d in BuildDirs(l) ==> d < n
  {
    RunKeepsInv(c, l, worlds, steps, |steps|);
  }

  /** In every state of such a run, too, the maps of every job object are a partition. */
  lemma MapsStayPartition(c: Config, l: Listing, worlds: seq<World>, steps: seq<Step>,
                          i: nat, id: nat)
    requires c.keepSuccessful >= 1 && c.keepBroken >= 1
    requires RunWithRoom(c, l, worlds, steps) && i <= |steps| && id in worlds[i].jobs
    ensures Partition(worlds[i].jobs[id])
  {
    RunKeepsInv(c, l, worlds, steps, i);
  }

  // ---- one process alone ---------------------------------------------------------------

  /** Only the job objects in ids take steps. */
  predicate OnlyBy(steps: seq<Step>, ids: set<nat>)
  {
    forall i :: 0 <= i < |steps| ==> steps[i].id in ids
  }

  /** The maps are a partition, and nothing in them is missing from the directory. */
  ghost predicate Anchored(m: Maps, l: Listing)
  {
    Partition(m) && forall n :: Known(m, n) ==> NumberString(n) in l
  }

  lemma LoadAnchored(l: Listing)
    ensures Anchored(Reload(l), l)
  {
    ReloadPartition(l);
    forall n | Known(Reload(l), n) ensures NumberString(n) in l {
      if NumberString(n) !in l { UnknownNumber(l, n); }
    }
  }

  lemma PrepareAnchored(m: Maps, l: Listing, m': Maps, l': Listing, number: Option<nat>,
                        script: string, params: seq<Pair>, session: string, f: PrepareFaults)
    requires Anchored(m, l) && NextNumber(l) <= MAX_BUILD
    requires Prepared(m, l, m', l', number, script, params, session, f)
    ensures Anchored(m', l')
  {
    NextIsNew(l);
    PreparePartition(m, l, m', l', number, script, params, session, f);
    assert l'.Keys >= l.Keys;
    if number.Some? {
      forall n | Known(m', n) ensures NumberString(n) in l' {
        assert n == number.value || Known(m, n);
      }
    }
  }

  lemma ExecuteAnchored(m: Maps, l: Listing, n: nat, force: bool, env: ExecuteEnv, lines: seq<string>,
                        before: ExitCode)
    requires Anchored(m, l) && n in m.pending
    ensures Anchored(ExecuteMaps(m, l, n, force, env, before), ExecuteListing(m, l, n, force, env, lines))
  {
    ExecuteMovesOne(m, l, n, force, env, before);
  }

  /** Pruning takes only builds out of the directory that it also takes out of the map. */
  lemma PruneAnchored(m: Maps, l: Listing, c: Class, count: nat, stuck: Stuck)
    requires Anchored(m, l) && c != Pending && count <= |OfClass(m, c)|
    ensures var r := Prune(OfClass(m, c), l, count, stuck);
            Anchored(WithClass(m, c, r.0), r.1)
  {
    var b := OfClass(m, c);
    var r := Prune(b, l, count, stuck);
    PruneLeaves(b, l, count, stuck);
    if r.2 {
      PruneRemoves(b, l, count, stuck);
    } else {
      PruneFails(b, l, count, stuck);
    }
    DropAnchored(m, l, c, r.0, r.1);
  }

  lemma DropAnchored(m: Maps, l: Listing, c: Class, left: map<nat, string>, l': Listing)
    requires Anchored(m, l) && c != Pending && DropsOldest(OfClass(m, c), left)
    requires l'.Keys == (l - Gone(OfClass(m, c), left)).Keys
    ensures Anchored(WithClass(m, c, left), l')
  {
    WithFewer(m, c, left);
    forall n | Known(WithClass(m, c, left), n) ensures NumberString(n) in l' {
      StaysNamed(OfClass(m, c), left, n);
    }
  }

  /** Dropping builds of one class keeps a partition, and what it drops is known no longer. */
  lemma WithFewer(m: Maps, c: Class, left: map<nat, string>)
    requires Partition(m) && c != Pending && DropsOldest(OfClass(m, c), left)
    ensures Partition(WithClass(m, c, left))
    ensures forall n :: Known(WithClass(m, c, left), n) ==> Known(m, n) && (n in OfClass(m, c) ==> n in left)
  {
  }

  lemma StaysNamed(b: map<nat, string>, left: map<nat, string>, n: nat)
    requires NamedBySix(b) && (n in b ==> n in left)
    ensures NumberString(n) !in Gone(b, left)
  {
    GoneValues(b, left);
    GoneByName(b - left.Keys, n);
  }

  lemma CleanupAnchored(m: Maps, l: Listing, c: Config, stuck: Stuck)
    requires Anchored(m, l)
    ensures Anchored(Cleaned(m, l, c, stuck).0, Cleaned(m, l, c, stuck).1)
  {
    var s := CleanupSuccessful(m, l, c, stuck);
    PruneAnchored(m, l, Successful, Excess(m.successful, c.keepSuccessful), stuck);
    if s.2 {
      PruneAnchored(m.(successful := s.0), s.1, Broken, Excess(m.broken, c.keepBroken), stuck);
    }
  }

  lemma StepAnchored(c: Config, w: World, step: Step, w': World)
    requires Takes(c, w, step, w') && HasRoom(w, step) && step.id == 0
    requires 0 in w.jobs ==> Anchored(w.jobs[0], w.disk)
    ensures 0 in w'.jobs && Anchored(w'.jobs[0], w'.disk)
  {
    match step
    case Load(_) => LoadAnchored(w.disk);
    case Prepare(_, params, session, f, number) =>
      PrepareAnchored(w.jobs[0], w.disk, w'.jobs[0], w'.disk, number, c.script, params, session, f);
    case Execute(_, n, force, env, lines, before) =>
      ExecuteAnchored(w.jobs[0], w.disk, n, force, env, lines, before);
    case Cleanup(_, stuck) => CleanupAnchored(w.jobs[0], w.disk, c, stuck);
  }

  /** The maps of a job object that works alone stay a partition whatever the keep counts are. */
  lemma {:induction false} SoleJobPartition(c: Config, l: Listing, worlds: seq<World>, steps: seq<Step>, i: nat)
    requires RunWithRoom(c, l, worlds, steps) && OnlyBy(steps, {0}) && i <= |steps|
    ensures 0 in worlds[i].jobs ==> Partition(worlds[i].jobs[0]) && Anchored(worlds[i].jobs[0], worlds[i].disk)
  {
    if i > 0 {
      SoleJobPartition(c, l, worlds, steps, i - 1);
      assert Takes(c, worlds[i - 1], steps[i - 1], worlds[i]) && HasRoom(worlds[i - 1], steps[i - 1]);
      StepAnchored(c, worlds[i - 1], steps[i - 1], worlds[i]);
    }
  }

  /** The step leaves a record of what it did: what a prepare, a cleanup or a run meets is such that
      the directory will show the outcome. */
  ghost predicate Recorded(c: Config, w: World, step: Step)
  {
    match step
    case Load(_) => true
    case Prepare(_, _, _, f, _) => PrepareRecords(w.disk, NextNumber(w.disk), c.script, f)
    case Execute(_, n, force, env, _, _) =>
      Starts(w.disk, NumberString(n), force, env) ==> env.report.Some? && env.exitFileOpens
    case Cleanup(id, stuck) => id in w.jobs ==> CleanupRecords(w.jobs[id], c, stuck)
  }

  /** As long as a job object's maps agree with the directory, its next step keeps that exactly if it
      leaves its record. */
  lemma StepAgreesExactly(c: Config, w: World, step: Step, w': World)
    requires Takes(c, w, step, w')
    requires step.id in w.jobs ==> Agrees(w.jobs[step.id], w.disk)
    ensures Agrees(w'.jobs[step.id], w'.disk) <==> Recorded(c, w, step)
  {
    match step
    case Load(_) =>
    case Prepare(id, params, session, f, number) =>
      PrepareAgreesExactly(w.jobs[id], w.disk, w'.jobs[id], w'.disk, number, c.script, params, session, f);
    case Execute(id, n, force, env, lines, before) =>
      ExecuteAgreesExactly(w.jobs[id], w.disk, n, force, env, lines, before);
    case Cleanup(id, stuck) => CleanupAgreesExactly(w.jobs[id], w.disk, c, stuck);
  }

  ghost predicate AgreesThroughout(worlds: seq<World>)
  {
    forall i :: 0 <= i < |worlds| && 0 in worlds[i].jobs ==> Agrees(worlds[i].jobs[0], worlds[i].disk)
  }

  ghost predicate RecordedThroughout(c: Config, worlds: seq<World>, steps: seq<Step>)
    requires |worlds| == |steps| + 1
  {
    forall i :: 0 <= i < |steps| ==> Recorded(c, worlds[i], steps[i])
  }

  lemma {:induction false} RecordsAgree(c: Config, l: Listing, worlds: seq<World>, steps: seq<Step>, i: nat)
    requires Run(c, l, worlds, steps) && OnlyBy(steps, {0}) && i <= |steps|
    requires RecordedThroughout(c, worlds, steps)
    ensures 0 in worlds[i].jobs ==> Agrees(worlds[i].jobs[0], worlds[i].disk)
  {
    if i > 0 {
      RecordsAgree(c, l, worlds, steps, i - 1);
      assert Takes(c, worlds[i - 1], steps[i - 1], worlds[i - 1 + 1]) && Recorded(c, worlds[i - 1], steps[i - 1]);
      StepAgreesExactly(c, worlds[i - 1], steps[i - 1], worlds[i]);
    }
  }

  /** Over any run of one job object a reload would at every moment give the maps in memory exactly if
      every step leaves its record. */
  lemma SoleJobAgreesExactly(c: Config, l: Listing, worlds: seq<World>, steps: seq<Step>)
    requires Run(c, l, worlds, steps) && OnlyBy(steps, {0})
    ensures AgreesThroughout(worlds) <==> RecordedThroughout(c, worlds, steps)
  {
    if RecordedThroughout(c, worlds, steps) {
      forall i | 0 <= i < |worlds| && 0 in worlds[i].jobs
        ensures Agrees(worlds[i].jobs[0], worlds[i].disk)
      {
        RecordsAgree(c, l, worlds, steps, i);
      }
    }
    if AgreesThroughout(worlds) {
      forall i | 0 <= i < |steps| ensures Recorded(c, worlds[i], steps[i]) {
        assert Takes(c, worlds[i], steps[i], worlds[i + 1]) && steps[i].id == 0;
        StepAgreesExactly(c, worlds[i], steps[i], worlds[i + 1]);
      }
    }
  }

  // ---- what the keep counts are for ----------------------------------------------------

  /** A directory prepare_build can work in: script and job.conf are there to be copied, and every
      entry with a build name is a directory. */
  ghost predicate Ready(c: Config, l: Listing)
  {
    && HasFile(l, c.script) && HasFile(l, "job.conf") && c.script != "job.conf"
    && forall name :: name in l && IsBuild(name) ==> l[name].Directory?
  }

  /** The names after which there is no build name. */
  const LAST := NumberString(MAX_BUILD)
  const BEYOND := NumberString(MAX_BUILD + 1)

  const NO_FAULT := PrepareFaults(false, false, false, false, false)

  function WithBuild(c: Config, l: Listing, n: nat): Listing
    requires HasFile(l, c.script) && HasFile(l, "job.conf")
  {
    l[NumberString(n) := Directory(Filled(map[], l, c.script, [], ""))]
  }

  function WithPending(m: Maps, n: nat): Maps { m.(pending := Emplace(m.pending, n, NumberString(n))) }

  lemma PrepareWorks(c: Config, m: Maps, l: Listing)
    requires Ready(c, l) && NextNumber(l) <= MAX_BUILD
    ensures var n := NextNumber(l);
            && NumberString(n) !in l
            && Prepared(m, l, WithPending(m, n), WithBuild(c, l, n), Some(n), c.script, [], "", NO_FAULT)
            && Ready(c, WithBuild(c, l, n)) && NextNumber(WithBuild(c, l, n)) == n + 1
  {
    var n := NextNumber(l);
    NumberStringRoundTrip(n);
    NextIsNew(l);
    PutGrows(l, Filled(map[], l, c.script, [], ""));
  }

  /** The run ends in w, and only job objects in ids take steps. */
  ghost predicate RunTo(c: Config, l: Listing, worlds: seq<World>, steps: seq<Step>, ids: set<nat>, w: World)
  {
    Run(c, l, worlds, steps) && OnlyBy(steps, ids) && worlds[|steps|] == w
  }

  lemma Extend(c: Config, l: Listing, worlds: seq<World>, steps: seq<Step>, ids: set<nat>, w: World,
               step: Step, w': World)
    returns (worlds': seq<World>, steps': seq<Step>)
    requires RunTo(c, l, worlds, steps, ids, w) && Takes(c, w, step, w') && step.id in ids
    ensures RunTo(c, l, worlds', steps', ids, w')
    ensures RunWithRoom(c, l, worlds, steps) && HasRoom(w, step) ==> RunWithRoom(c, l, worlds', steps')
  {
    worlds', steps' := worlds + [w'], steps + [step];
    forall i | 0 <= i < |steps'|
      ensures Takes(c, worlds'[i], steps'[i], worlds'[i + 1])
      ensures RunWithRoom(c, l, worlds, steps) && HasRoom(w, step) ==> HasRoom(worlds'[i], steps'[i])
    {
      if i < |steps| {
        assert Takes(c, worlds[i], steps[i], worlds[i + 1]);
        assert RunWithRoom(c, l, worlds, steps) ==> HasRoom(worlds[i], steps[i]);
      }
    }
  }

  function AfterPrepare(c: Config, w: World, id: nat, n: nat): World
    requires id in w.jobs && HasFile(w.disk, c.script) && HasFile(w.disk, "job.conf")
  {
    World(WithBuild(c, w.disk, n), w.jobs[id := WithPending(w.jobs[id], n)], w.given + [n])
  }

  /** One prepare without a fault. */
  lemma AddPrepare(c: Config, l: Listing, worlds: seq<World>, steps: seq<Step>, ids: set<nat>, w: World, id: nat)
    returns (worlds': seq<World>, steps': seq<Step>, w': World)
    requires RunTo(c, l, worlds, steps, ids, w) && RunWithRoom(c, l, worlds, steps) && id in w.jobs && id in ids
    requires Ready(c, w.disk) && NextNumber(w.disk) <= MAX_BUILD
    ensures RunTo(c, l, worlds', steps', ids, w') && RunWithRoom(c, l, worlds', steps')
    ensures w' == AfterPrepare(c, w, id, NextNumber(w.disk))
    ensures Ready(c, w'.disk) && NextNumber(w'.disk) == NextNumber(w.disk) + 1
    ensures BEYOND !in w.disk ==> BEYOND !in w'.disk
  {
    var n := NextNumber(w.disk);
    w' := AfterPrepare(c, w, id, n);
    NumberStringInjective(n, MAX_BUILD + 1);
    PrepareWorks(c, w.jobs[id], w.disk);
    worlds', steps' := Extend(c, l, worlds, steps, ids, w, Prepare(id, [], "", NO_FAULT, Some(n)), w');
  }

  /** Prepares by one job object until n is the next number. */
  lemma {:induction false} AddPrepares(c: Config, l: Listing, worlds: seq<World>, steps: seq<Step>, ids: set<nat>,
                                       w: World, id: nat, n: nat)
    returns (worlds': seq<World>, steps': seq<Step>, w': World)
    requires RunTo(c, l, worlds, steps, ids, w) && RunWithRoom(c, l, worlds, steps) && id in w.jobs && id in ids
    requires Ready(c, w.disk) && NextNumber(w.disk) <= n <= MAX_BUILD
    ensures RunTo(c, l, worlds', steps', ids, w') && RunWithRoom(c, l, worlds', steps')
    ensures Ready(c, w'.disk) && NextNumber(w'.disk) == n && w.given <= w'.given
    ensures BEYOND !in w.disk ==> BEYOND !in w'.disk
    ensures w'.jobs.Keys == w.jobs.Keys && forall k :: k in w.jobs && k != id ==> w'.jobs[k] == w.jobs[k]
    decreases n - NextNumber(w.disk)
  {
    if NextNumber(w.disk) == n {
      return worlds, steps, w;
    }
    worlds', steps', w' := AddPrepare(c, l, worlds, steps, ids, w, id);
    worlds', steps', w' := AddPrepares(c, l, worlds', steps', ids, w', id, n);
  }

  /** A class of which nothing is kept, if there is one. */
  function DoomedClass(c: Config): Class { if c.keepSuccessful == 0 then Successful else Broken }

  /** An exit code that sends a build to that finished class. */
  function CodeOf(cls: Class): ExitCode { if cls == Successful then 0 else 1 }

  /** A script that prints nothing; its end of file on stdout still gives an empty line. */
  function Quiet(code: ExitCode): ExecuteEnv
  {
    ExecuteEnv(false, true, false, true, JobRunner.Pipe([], JobRunner.Eof(0)), JobRunner.Pipe([], JobRunner.Eof(0)),
               Some(code), true)
  }

  const EMPTY_LINE: seq<string> := [""]

  lemma QuietPrints(code: ExitCode)
    ensures Printed(Quiet(code), EMPTY_LINE)
  {
    SplitOneLine("");
    assert JobRunner.Merge([], [], []);
    assert EMPTY_LINE[..0] == [];
  }

  /** Build n has run and counts as one of class cls, in the maps and in the directory. */
  lemma RunAs(c: Config, m: Maps, l: Listing, n: nat, cls: Class)
    requires Ready(c, l) && n in m.pending && m.pending[n] == NumberString(n) && n <= MAX_BUILD && NumberString(n) in l
    requires cls != Pending
    ensures Finished(ExecuteMaps(m, l, n, false, Quiet(CodeOf(cls)), 0), n)
    ensures var l' := ExecuteListing(m, l, n, false, Quiet(CodeOf(cls)), EMPTY_LINE);
            Ready(c, l') && NextNumber(l') == NextNumber(l) && InClass(l', n, cls)
  {
    var dir, env := NumberString(n), Quiet(CodeOf(cls));
    NumberStringRoundTrip(n);
    RunClass(l[dir].files, env, EMPTY_LINE);
    ExecuteGrows(m, l, n, false, env, EMPTY_LINE);
    assert Looked(m, n) == m && Starts(l, dir, false, env);
  }

  /** Of l, at most entries with build names are missing in l'. */
  predicate BuildsGone(l: Listing, l': Listing)
  {
    && (forall name :: name in l' ==> name in l && l'[name] == l[name])
    && (forall name :: name in l && name !in l' ==> IsBuild(name))
  }

  lemma ReadyWithout(c: Config, l: Listing, l': Listing, n: nat)
    requires Ready(c, l) && BuildsGone(l, l') && NextNumber(l) == n + 1 && NumberString(n) !in l'
    ensures Ready(c, l') && NextNumber(l') <= n
  {
    assert BuildDirs(l') <= BuildDirs(l);
    assert n !in BuildDirs(l');
  }

  lemma {:induction false} NothingStuck(b: map<nat, string>, l: Listing, count: nat)
    requires count <= |b|
    ensures Prune(b, l, count, map[]).2
    decreases count
  {
    if count > 0 {
      DropFirst(b, b, First(b));
      NothingStuck(b - {First(b)}, l - {b[First(b)]}, count - 1);
    }
  }

  /** Without a stuck file only builds go; all of them if all are asked for. */
  lemma PruneClears(b: map<nat, string>, l: Listing, count: nat)
    requires NamedBySix(b) && count <= |b|
    ensures var r := Prune(b, l, count, map[]);
            && r.2 && BuildsGone(l, r.1)
            && (count == |b| ==> forall n :: n in b ==> NumberString(n) !in r.1)
  {
    var r := Prune(b, l, count, map[]);
    NothingStuck(b, l, count);
    PruneCounts(b, l, count, map[]);
    PruneRemoves(b, l, count, map[]);
    forall name | name in Gone(b, r.0) ensures IsBuild(name) {
      var n :| n in b && b[n] == name;
      NumberStringRoundTrip(n);
    }
    if count == |b| {
      assert r.0 == map[];
      forall n | n in b ensures NumberString(n) !in r.1 { assert b[n] in Gone(b, r.0); }
    }
  }

  lemma CleanDoomed(c: Config, l: Listing, n: nat)
    requires c.keepSuccessful == 0 || c.keepBroken == 0
    requires InClass(l, n, DoomedClass(c))
    ensures BuildsGone(l, Cleaned(Reload(l), l, c, map[]).1) && NumberString(n) !in Cleaned(Reload(l), l, c, map[]).1
  {
    var m := Reload(l);
    ReloadPartition(l);
    BuildsAre(l, DoomedClass(c));
    PruneClears(m.successful, l, Excess(m.successful, c.keepSuccessful));
    var s := CleanupSuccessful(m, l, c, map[]);
    PruneClears(m.broken, s.1, Excess(m.broken, c.keepBroken));
  }

  /** A job object loads the directory and prepares a build ... */
  lemma AddFirst(c: Config, l: Listing, ids: set<nat>) returns (worlds: seq<World>, steps: seq<Step>, w: World)
    requires Ready(c, l) && NextNumber(l) <= MAX_BUILD && 0 in ids
    ensures RunTo(c, l, worlds, steps, ids, w) && RunWithRoom(c, l, worlds, steps)
    ensures w == AfterPrepare(c, World(l, map[0 := Reload(l)], []), 0, NextNumber(l))
    ensures Ready(c, w.disk) && NextNumber(w.disk) == NextNumber(l) + 1
  {
    worlds, steps := Extend(c, l, [World(l, map[], [])], [], ids, World(l, map[], []), Load(0),
                            World(l, map[0 := Reload(l)], []));
    worlds, steps, w := AddPrepare(c, l, worlds, steps, ids, World(l, map[0 := Reload(l)], []), 0);
  }

  /** ... and runs it to the doomed class. */
  lemma AddDoomed(c: Config, l: Listing, ids: set<nat>) returns (worlds: seq<World>, steps: seq<Step>, w': World)
    requires Ready(c, l) && NextNumber(l) <= MAX_BUILD && 0 in ids
    ensures RunTo(c, l, worlds, steps, ids, w') && RunWithRoom(c, l, worlds, steps)
    ensures Ready(c, w'.disk) && NextNumber(w'.disk) == NextNumber(l) + 1 && w'.given == [NextNumber(l)]
    ensures 0 in w'.jobs && Finished(w'.jobs[0], NextNumber(l)) && InClass(w'.disk, NextNumber(l), DoomedClass(c))
  {
    var n, code := NextNumber(l), CodeOf(DoomedClass(c));
    var env := Quiet(code);
    var w;
    worlds, steps, w := AddFirst(c, l, ids);
    PrepareWorks(c, Reload(l), l);
    UnknownNumber(l, n);
    var m := w.jobs[0];
    RunAs(c, m, w.disk, n, DoomedClass(c));
    QuietPrints(code);
    w' := World(ExecuteListing(m, w.disk, n, false, env, EMPTY_LINE),
                w.jobs[0 := ExecuteMaps(m, w.disk, n, false, env, 0)], w.given);
    worlds, steps := Extend(c, l, worlds, steps, ids, w, Execute(0, n, false, env, EMPTY_LINE, 0), w');
  }

  /** What is left when job object id loads the directory and cleans up. */
  ghost function AfterCleanup(c: Config, w: World, id: nat): World
  {
    var r := Cleaned(Reload(w.disk), w.disk, c, map[]);
    World(r.1, w.jobs[id := r.0], w.given)
  }

  lemma CleanAfterLoad(c: Config, w: World, id: nat)
    ensures Takes(c, w.(jobs := w.jobs[id := Reload(w.disk)]), Cleanup(id, map[]), AfterCleanup(c, w, id))
  {
    var m := Reload(w.disk);
    CleanTakes(c, w, id, m, Cleaned(m, w.disk, c, map[]));
  }

  lemma CleanTakes(c: Config, w: World, id: nat, m: Maps, r: (Maps, Listing, bool))
    requires r == Cleaned(m, w.disk, c, map[])
    ensures Takes(c, w.(jobs := w.jobs[id := m]), Cleanup(id, map[]), World(r.1, w.jobs[id := r.0], w.given))
  {
    assert w.jobs[id := m][id := r.0] == w.jobs[id := r.0];
  }

  lemma AddCleanup(c: Config, l: Listing, worlds: seq<World>, steps: seq<Step>, ids: set<nat>, w: World,
                   id: nat, n: nat)
    returns (worlds': seq<World>, steps': seq<Step>, w': World)
    requires c.keepSuccessful == 0 || c.keepBroken == 0
    requires RunTo(c, l, worlds, steps, ids, w) && RunWithRoom(c, l, worlds, steps) && id in ids
    requires Ready(c, w.disk) && NextNumber(w.disk) == n + 1 && InClass(w.disk, n, DoomedClass(c))
    ensures RunTo(c, l, worlds', steps', ids, w') && RunWithRoom(c, l, worlds', steps')
    ensures w' == AfterCleanup(c, w, id) && Ready(c, w'.disk) && NextNumber(w'.disk) <= n
  {
    var w1 := w.(jobs := w.jobs[id := Reload(w.disk)]);
    w' := AfterCleanup(c, w, id);
    CleanAfterLoad(c, w, id);
    worlds', steps' := Extend(c, l, worlds, steps, ids, w, Load(id), w1);
    worlds', steps' := Extend(c, l, worlds', steps', ids, w1, Cleanup(id, map[]), w');
    CleanDoomed(c, w.disk, n);
    ReadyWithout(c, w.disk, w'.disk, n);
  }

  /** Up to where number n, given out and finished, is free again. */
  lemma AddFreed(c: Config, l: Listing, id: nat) returns (worlds: seq<World>, steps: seq<Step>, w: World)
    requires Ready(c, l) && NextNumber(l) <= MAX_BUILD && (c.keepSuccessful == 0 || c.keepBroken == 0)
    ensures RunTo(c, l, worlds, steps, {0, id}, w) && RunWithRoom(c, l, worlds, steps)
    ensures Ready(c, w.disk) && NextNumber(w.disk) <= NextNumber(l) && w.given == [NextNumber(l)]
    ensures 0 in w.jobs && id in w.jobs && (id != 0 ==> Finished(w.jobs[0], NextNumber(l)))
  {
    worlds, steps, w := AddDoomed(c, l, {0, id});
    worlds, steps, w := AddCleanup(c, l, worlds, steps, {0, id}, w, id, NextNumber(l));
  }

  /** If nothing is kept of one class, a build of that class that is cleaned up frees its number, and
      after some prepares the same number is given out again. One job object (id 0) is enough for that;
      and if it was another that cleaned up, the first has the number in two maps at the end. */
  lemma ZeroKeepReuses(c: Config, l: Listing, id: nat) returns (worlds: seq<World>, steps: seq<Step>)
    requires Ready(c, l) && NextNumber(l) <= MAX_BUILD && (c.keepSuccessful == 0 || c.keepBroken == 0)
    ensures RunWithRoom(c, l, worlds, steps) && OnlyBy(steps, {0, id})
    ensures var given := worlds[|steps|].given;
            |given| >= 2 && given[0] == given[|given| - 1] == NextNumber(l)
    ensures id != 0 ==> 0 in worlds[|steps|].jobs && !Partition(worlds[|steps|].jobs[0])
  {
    var n := NextNumber(l);
    var w, w';
    worlds, steps, w := AddFreed(c, l, id);
    worlds, steps, w := AddPrepares(c, l, worlds, steps, {0, id}, w, id, n);
    worlds, steps, w' := AddPrepare(c, l, worlds, steps, {0, id}, w, 0);
    assert w'.given == w.given + [n] && w.given[0] == n;
    if id != 0 { TwiceKnown(w.jobs[0], n); }
  }

  lemma TwiceKnown(m: Maps, n: nat)
    requires Finished(m, n)
    ensures !Partition(WithPending(m, n))
  {
    assert n in WithPending(m, n).pending;
  }

  ghost predicate AllRunsAscend(c: Config, l: Listing)
  {
    forall worlds: seq<World>, steps: seq<Step> :: RunWithRoom(c, l, worlds, steps) ==> Ascending(worlds[|steps|].given)
  }

  /** Build numbers are never given out twice exactly when at least one build of each class is kept. */
  lemma AscendExactly(c: Config, l: Listing)
    requires Ready(c, l) && NextNumber(l) <= MAX_BUILD
    ensures AllRunsAscend(c, l) <==> c.keepSuccessful >= 1 && c.keepBroken >= 1
  {
    if c.keepSuccessful >= 1 && c.keepBroken >= 1 {
      forall worlds: seq<World>, steps: seq<Step> | RunWithRoom(c, l, worlds, steps)
        ensures Ascending(worlds[|steps|].given)
      {
        NumbersOnlyGrow(c, l, worlds, steps);
      }
    } else {
      var worlds, steps := ZeroKeepReuses(c, l, 0);
      var given := worlds[|steps|].given;
      assert !(given[0] < given[|given| - 1]);
    }
  }

  ghost predicate PartitionsAt(w: World) { forall id :: id in w.jobs ==> Partition(w.jobs[id]) }

  ghost predicate AllRunsPartition(c: Config, l: Listing)
  {
    forall worlds: seq<World>, steps: seq<Step> :: RunWithRoom(c, l, worlds, steps) ==> PartitionsAt(worlds[|steps|])
  }

  /** With several job objects on one directory, the maps of each stay a partition exactly when at least
      one build of each class is kept. */
  lemma PartitionExactly(c: Config, l: Listing)
    requires Ready(c, l) && NextNumber(l) <= MAX_BUILD
    ensures AllRunsPartition(c, l) <==> c.keepSuccessful >= 1 && c.keepBroken >= 1
  {
    if c.keepSuccessful >= 1 && c.keepBroken >= 1 {
      forall worlds: seq<World>, steps: seq<Step> | RunWithRoom(c, l, worlds, steps)
        ensures PartitionsAt(worlds[|steps|])
      {
        forall id | id in worlds[|steps|].jobs ensures Partition(worlds[|steps|].jobs[id]) {
          MapsStayPartition(c, l, worlds, steps, |steps|, id);
        }
      }
    } else {
      var worlds, steps := ZeroKeepReuses(c, l, 1);
      assert !PartitionsAt(worlds[|steps|]);
    }
  }

  // ---- without room --------------------------------------------------------------------

  /** A job whose only build is number 999999, which succeeded. */
  ghost predicate FullJob(c: Config, l: Listing)
  {
    && Ready(c, l) && c.keepSuccessful == 1
    && Numbered(l) == {MAX_BUILD} && ClassOf(l[NumberString(MAX_BUILD)]) == Successful
    && NumberString(MAX_BUILD + 1) !in l
  }

  /** The maps of the job object below: loaded, build 1000000 prepared, run, and 999999 cleaned up. */
  function OnlyLast(): Maps { Maps(map[MAX_BUILD := LAST], map[], map[]) }
  function BeyondPending(): Maps { WithPending(OnlyLast(), MAX_BUILD + 1) }
  function BothDone(): Maps { Maps(map[MAX_BUILD := LAST, MAX_BUILD + 1 := BEYOND], map[], map[]) }
  function OnlyBeyond(): Maps { Maps(map[MAX_BUILD + 1 := BEYOND], map[], map[]) }

  lemma FullJobLoads(c: Config, l: Listing)
    requires FullJob(c, l)
    ensures Reload(l) == OnlyLast() && NextNumber(l) == MAX_BUILD + 1
  {
    NoNumber();
    assert BuildDirs(l) == {MAX_BUILD};
    GreatestIs(BuildDirs(l), MAX_BUILD);
    BuildsAre(l, Successful);
    BuildsAre(l, Broken);
    BuildsAre(l, Pending);
    SameBuilds(BuildsOf(l, Successful), map[MAX_BUILD := LAST]);
    SameBuilds(BuildsOf(l, Broken), map[]);
    SameBuilds(BuildsOf(l, Pending), map[]);
  }

  lemma BeyondPrepares(c: Config, l: Listing)
    requires FullJob(c, l)
    ensures Prepared(OnlyLast(), l, BeyondPending(), WithBuild(c, l, MAX_BUILD + 1), Some(MAX_BUILD + 1), c.script, [],
                     "", NO_FAULT)
  {
    FullJobLoads(c, l);
    assert FilesIn(l, BEYOND) == map[];
  }

  /** The directory after build 1000000 ran. */
  function BeyondRan(c: Config, l: Listing): Listing
    requires HasFile(l, c.script) && HasFile(l, "job.conf")
  {
    ExecuteListing(BeyondPending(), WithBuild(c, l, MAX_BUILD + 1), MAX_BUILD + 1, false, Quiet(0), EMPTY_LINE)
  }

  lemma BeyondRuns(c: Config, l: Listing)
    requires HasFile(l, c.script) && HasFile(l, "job.conf")
    ensures BothDone() ==
            ExecuteMaps(BeyondPending(), WithBuild(c, l, MAX_BUILD + 1), MAX_BUILD + 1, false, Quiet(0), 0)
    ensures BeyondRan(c, l).Keys == l.Keys + {BEYOND}
    ensures forall name :: name in l && name != BEYOND ==> BeyondRan(c, l)[name] == l[name]
  {
    NumberStringRoundTrip(MAX_BUILD + 1);
    assert Looked(BeyondPending(), MAX_BUILD + 1) == BeyondPending();
    assert Starts(WithBuild(c, l, MAX_BUILD + 1), BEYOND, false, Quiet(0));
    assert BeyondPending().pending - {MAX_BUILD + 1} == map[];
    assert OnlyLast().successful[MAX_BUILD + 1 := BEYOND] == BothDone().successful;
  }

  /** The old greatest number can be cleaned up now ... */
  lemma FullJobCleans(l: Listing, c: Config)
    requires c.keepSuccessful == 1
    ensures Cleaned(BothDone(), l, c, map[]) == (OnlyBeyond(), l - {LAST}, true)
  {
    var b := BothDone().successful;
    assert IsFirst(b, MAX_BUILD) && |b| == 2;
    FirstUnique(b, MAX_BUILD);
    assert b - {MAX_BUILD} == OnlyBeyond().successful;
    assert Prune(b, l, 1, map[]) == Prune(OnlyBeyond().successful, l - {LAST}, 0, map[]);
  }

  /** ... and since the new directory is no build, the numbers start again from 0. */
  lemma FullJobEmpties(c: Config, l: Listing)
    requires FullJob(c, l)
    ensures Ready(c, BeyondRan(c, l) - {LAST}) && NextNumber(BeyondRan(c, l) - {LAST}) == 0
  {
    var l' := BeyondRan(c, l) - {LAST};
    BeyondRuns(c, l);
    NumberStringRoundTrip(MAX_BUILD);
    NumberStringRoundTrip(MAX_BUILD + 1);
    forall n: nat ensures n !in Numbered(l') {
      NumberStringInjective(n, MAX_BUILD);
      NumberStringInjective(n, MAX_BUILD + 1);
    }
    assert BuildDirs(l') == {};
    GreatestIs({}, -1);
  }

  /** The states of the run below. */
  function Loaded(l: Listing): World { World(l, map[0 := OnlyLast()], []) }

  function BeyondIn(l: Listing, m: Maps): World { World(l, map[0 := m], [MAX_BUILD + 1]) }

  lemma LoadsLast(c: Config, l: Listing)
    requires FullJob(c, l)
    ensures Takes(c, World(l, map[], []), Load(0), Loaded(l))
  {
    FullJobLoads(c, l);
  }

  lemma PreparesBeyond(c: Config, l: Listing)
    requires FullJob(c, l)
    ensures Takes(c, Loaded(l), Prepare(0, [], "", NO_FAULT, Some(MAX_BUILD + 1)),
                  BeyondIn(WithBuild(c, l, MAX_BUILD + 1), BeyondPending()))
  {
    BeyondPrepares(c, l);
    assert map[0 := OnlyLast()][0 := BeyondPending()] == map[0 := BeyondPending()];
  }

  lemma RunsBeyond(c: Config, l: Listing)
    requires HasFile(l, c.script) && HasFile(l, "job.conf")
    ensures Takes(c, BeyondIn(WithBuild(c, l, MAX_BUILD + 1), BeyondPending()),
                  Execute(0, MAX_BUILD + 1, false, Quiet(0), EMPTY_LINE, 0), BeyondIn(BeyondRan(c, l), BothDone()))
  {
    BeyondRuns(c, l);
    QuietPrints(0);
    assert map[0 := BeyondPending()][0 := BothDone()] == map[0 := BothDone()];
  }

  lemma CleansLast(c: Config, l: Listing)
    requires c.keepSuccessful == 1
    ensures Takes(c, BeyondIn(l, BothDone()), Cleanup(0, map[]), BeyondIn(l - {LAST}, OnlyBeyond()))
  {
    FullJobCleans(l, c);
    assert map[0 := BothDone()][0 := OnlyBeyond()] == map[0 := OnlyBeyond()];
  }

  lemma PreparesAgain(c: Config, l: Listing)
    requires Ready(c, l) && NextNumber(l) == 0
    ensures Takes(c, BeyondIn(l, OnlyBeyond()), Prepare(0, [], "", NO_FAULT, Some(0)),
                  AfterPrepare(c, BeyondIn(l, OnlyBeyond()), 0, 0))
  {
    PrepareWorks(c, OnlyBeyond(), l);
  }

  /** The first half of the run: 999999 is loaded and 1000000 given out. */
  lemma BeyondStarts(c: Config, l: Listing) returns (worlds: seq<World>, steps: seq<Step>)
    requires FullJob(c, l)
    ensures RunTo(c, l, worlds, steps, {0}, BeyondIn(WithBuild(c, l, MAX_BUILD + 1), BeyondPending()))
  {
    var w0 := World(l, map[], []);
    LoadsLast(c, l);
    worlds, steps := Extend(c, l, [w0], [], {0}, w0, Load(0), Loaded(l));
    PreparesBeyond(c, l);
    worlds, steps := Extend(c, l, worlds, steps, {0}, Loaded(l), Prepare(0, [], "", NO_FAULT, Some(MAX_BUILD + 1)),
                            BeyondIn(WithBuild(c, l, MAX_BUILD + 1), BeyondPending()));
  }

  /** The second half: 1000000 runs and 999999 is cleaned up. */
  lemma BeyondEnds(c: Config, l: Listing) returns (worlds: seq<World>, steps: seq<Step>)
    requires FullJob(c, l)
    ensures RunTo(c, l, worlds, steps, {0}, BeyondIn(BeyondRan(c, l) - {LAST}, OnlyBeyond()))
  {
    var w2 := BeyondIn(WithBuild(c, l, MAX_BUILD + 1), BeyondPending());
    var w3 := BeyondIn(BeyondRan(c, l), BothDone());
    worlds, steps := BeyondStarts(c, l);
    RunsBeyond(c, l);
    worlds, steps := Extend(c, l, worlds, steps, {0}, w2, Execute(0, MAX_BUILD + 1, false, Quiet(0), EMPTY_LINE, 0),
                            w3);
    CleansLast(c, BeyondRan(c, l));
    worlds, steps := Extend(c, l, worlds, steps, {0}, w3, Cleanup(0, map[]),
                            BeyondIn(BeyondRan(c, l) - {LAST}, OnlyBeyond()));
  }

  lemma BeyondIsNone(m: Maps)
    requires MAX_BUILD + 1 in m.successful
    ensures !Partition(m)
  {
  }

  /** The room that the results above ask for is needed: with the greatest number in use there is a run
      of one job object that gives out 1000000 and then 0, and its maps are no partition. */
  lemma NoRoomRestarts(c: Config, l: Listing) returns (worlds: seq<World>, steps: seq<Step>)
    requires FullJob(c, l)
    ensures Run(c, l, worlds, steps) && OnlyBy(steps, {0}) && worlds[|steps|].given == [MAX_BUILD + 1, 0]
    ensures 0 in worlds[|steps|].jobs && !Partition(worlds[|steps|].jobs[0])
  {
    var l' := BeyondRan(c, l) - {LAST};
    var w := BeyondIn(l', OnlyBeyond());
    worlds, steps := BeyondEnds(c, l);
    FullJobEmpties(c, l);
    PreparesAgain(c, l');
    worlds, steps := Extend(c, l, worlds, steps, {0}, w, Prepare(0, [], "", NO_FAULT, Some(0)),
                            AfterPrepare(c, w, 0, 0));
    BeyondIsNone(WithPending(OnlyBeyond(), 0));
  }
}
