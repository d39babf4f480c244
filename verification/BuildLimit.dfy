/** Runs that may come to the end of the six-digit numbers. Number 1000000 is given out after 999999, but
    its directory has no build name; what happens then depends on whether cleanup can still remove build
    999999. */
module BuildLimit {
  import opened Text
  import opened Numbers
  import opened ParamCodec
  import opened Builds
  import opened JobStore
  import opened BuildLaws
  import opened BuildRuns
  import opened BuildRaces

  predicate NamedToLimit(b: map<nat, string>)
  {
    forall n :: n in b ==> n <= MAX_BUILD + 1 && b[n] == NumberString(n)
  }

  predicate MapsNamed(m: Maps) { NamedToLimit(m.successful) && NamedToLimit(m.broken) && NamedToLimit(m.pending) }

  /** The invariant once 999999 is in use: nothing above 1000000 is given out, and 1000000 at most once. */
  ghost predicate AtLimit(c: Config, w: World)
  {
    && NextNumber(w.disk) == MAX_BUILD + 1
    && Ascending(w.given) && (forall n :: n in w.given ==> n <= MAX_BUILD + 1)
    && (MAX_BUILD + 1 in w.given ==> Taken(c, w.disk, MAX_BUILD + 1))
    && (forall id :: id in w.jobs ==> MapsNamed(w.jobs[id]))
  }

  ghost predicate LimitInv(c: Config, w: World)
  {
    if NextNumber(w.disk) <= MAX_BUILD then Inv(w) else AtLimit(c, w)
  }

  lemma InvAtLimit(c: Config, w: World)
    requires Inv(w)
    ensures LimitInv(c, w)
  {
    NextIsNew(w.disk);
    forall id | id in w.jobs ensures MapsNamed(w.jobs[id]) { assert Partition(w.jobs[id]); }
  }

  // ---- with two builds kept of each class ----------------------------------------------

  /** Only 1000000 is above 999999, so no cleanup that keeps two builds of a class removes either. */
  lemma TopSpared(b: map<nat, string>, keep: nat, n: nat)
    requires NamedToLimit(b) && keep >= 2 && n >= MAX_BUILD
    ensures !Outdated(b, keep, n)
  {
    Smaller(set k | k in b && k > n, {MAX_BUILD + 1});
  }

  /** 999999 in use is all it takes for 1000000 to be next. */
  lemma LastDecides(l: Listing)
    ensures NextNumber(l) == MAX_BUILD + 1 <==> NumberString(MAX_BUILD) in l && l[NumberString(MAX_BUILD)].Directory?
  {
    NextIsNew(l);
    assert MAX_BUILD in BuildDirs(l) <==> NumberString(MAX_BUILD) in l && l[NumberString(MAX_BUILD)].Directory?;
  }

  lemma TopKept(c: Config, m: Maps, l: Listing, stuck: Stuck, n: nat, node: Node)
    requires c.keepSuccessful >= 2 && c.keepBroken >= 2 && MapsNamed(m) && n >= MAX_BUILD
    requires Holds(l, NumberString(n), node)
    ensures Holds(Cleaned(m, l, c, stuck).1, NumberString(n), node)
  {
    TopSpared(m.successful, c.keepSuccessful, n);
    TopSpared(m.broken, c.keepBroken, n);
    CleanupSpares(m, l, c, stuck, n, node);
  }

  lemma CleanupAtLimit(c: Config, m: Maps, l: Listing, stuck: Stuck)
    requires c.keepSuccessful >= 2 && c.keepBroken >= 2 && MapsNamed(m) && NextNumber(l) == MAX_BUILD + 1
    ensures var r := Cleaned(m, l, c, stuck);
            && NextNumber(r.1) == MAX_BUILD + 1 && MapsNamed(r.0)
            && (Taken(c, l, MAX_BUILD + 1) ==> Taken(c, r.1, MAX_BUILD + 1))
  {
    var r := Cleaned(m, l, c, stuck);
    CleanupKeepsNewest(m, l, c, stuck);
    LastDecides(l);
    TopKept(c, m, l, stuck, MAX_BUILD, l[NumberString(MAX_BUILD)]);
    LastDecides(r.1);
    if Taken(c, l, MAX_BUILD + 1) { TopKept(c, m, l, stuck, MAX_BUILD + 1, l[NumberString(MAX_BUILD + 1)]); }
  }

  /** Once 999999 is in use it stays so when 1000000 is prepared or the prepare fails. */
  lemma PutAtLimit(l: Listing, node: Node)
    requires NextNumber(l) == MAX_BUILD + 1
    ensures NextNumber(l[NumberString(MAX_BUILD + 1) := node]) == MAX_BUILD + 1
  {
    NumberStringInjective(MAX_BUILD, MAX_BUILD + 1);
    LastDecides(l);
    LastDecides(l[NumberString(MAX_BUILD + 1) := node]);
  }

  lemma PrepareAtLimit(c: Config, m: Maps, l: Listing, m': Maps, l': Listing, number: Option<nat>,
                       params: seq<Pair>, session: string, f: PrepareFaults)
    requires NextNumber(l) == MAX_BUILD + 1 && MapsNamed(m)
    requires Prepared(m, l, m', l', number, c.script, params, session, f)
    ensures NextNumber(l') == MAX_BUILD + 1 && MapsNamed(m')
    ensures Taken(c, l, MAX_BUILD + 1) ==> Taken(c, l', MAX_BUILD + 1)
    ensures number.Some? ==> number.value == MAX_BUILD + 1 && !Taken(c, l, number.value) && Taken(c, l', number.value)
  {
    var n := MAX_BUILD + 1;
    CreatedTaken(c, n, m, l, m', l', number, params, session, f, n);
    if l' != l { PutAtLimit(l, l'[NumberString(n)]); }
  }

  lemma JobNamed(w: World, w': World, id: nat)
    requires forall k :: k in w.jobs ==> MapsNamed(w.jobs[k])
    requires id in w'.jobs && w'.jobs == w.jobs[id := w'.jobs[id]] && MapsNamed(w'.jobs[id])
    ensures forall k :: k in w'.jobs ==> MapsNamed(w'.jobs[k])
  {
  }

  lemma StepPrepareAtLimit(c: Config, w: World, step: Step, w': World)
    requires step.Prepare? && AtLimit(c, w) && Takes(c, w, step, w')
    ensures AtLimit(c, w')
  {
    PrepareAtLimit(c, w.jobs[step.id], w.disk, w'.jobs[step.id], w'.disk, step.number, step.params, step.session,
                   step.f);
    GivenAtLimit(c, w, step.number, w');
    JobNamed(w, w', step.id);
  }

  /** 1000000 is given out only if it was not yet. */
  lemma GivenAtLimit(c: Config, w: World, number: Option<nat>, w': World)
    requires Ascending(w.given) && (forall n :: n in w.given ==> n <= MAX_BUILD + 1)
    requires MAX_BUILD + 1 in w.given ==> Taken(c, w.disk, MAX_BUILD + 1)
    requires Taken(c, w.disk, MAX_BUILD + 1) ==> Taken(c, w'.disk, MAX_BUILD + 1)
    requires number.Some? ==>
               number.value == MAX_BUILD + 1 && !Taken(c, w.disk, number.value) && Taken(c, w'.disk, number.value)
    requires w'.given == if number.Some? then w.given + [number.value] else w.given
    ensures Ascending(w'.given) && (forall n :: n in w'.given ==> n <= MAX_BUILD + 1)
    ensures MAX_BUILD + 1 in w'.given ==> Taken(c, w'.disk, MAX_BUILD + 1)
  {
    if number.Some? { AscendingSnoc(w.given, MAX_BUILD + 1); }
  }

  lemma ExecuteNamed(m: Maps, l: Listing, n: nat, force: bool, env: ExecuteEnv, before: ExitCode)
    requires MapsNamed(m) && n in m.pending
    ensures MapsNamed(ExecuteMaps(m, l, n, force, env, before))
  {
  }

  lemma StepExecuteAtLimit(c: Config, w: World, step: Step, w': World)
    requires step.Execute? && AtLimit(c, w) && Takes(c, w, step, w')
    ensures AtLimit(c, w')
  {
    var m := w.jobs[step.id];
    ExecuteNamed(m, w.disk, step.n, step.force, step.env, step.before);
    ExecuteGrows(m, w.disk, step.n, step.force, step.env, step.lines);
    if Taken(c, w.disk, MAX_BUILD + 1) {
      ExecuteTaken(c, m, w.disk, step.n, step.force, step.env, step.lines, MAX_BUILD + 1);
    }
    JobNamed(w, w', step.id);
  }

  lemma StepAtLimit(c: Config, w: World, step: Step, w': World)
    requires c.keepSuccessful >= 2 && c.keepBroken >= 2 && AtLimit(c, w) && Takes(c, w, step, w')
    ensures AtLimit(c, w')
  {
    match step
    case Load(id) =>
      ReloadPartition(w.disk);
      JobNamed(w, w', id);
    case Prepare(_, _, _, _, _) => StepPrepareAtLimit(c, w, step, w');
    case Execute(_, _, _, _, _, _) => StepExecuteAtLimit(c, w, step, w');
    case Cleanup(id, stuck) =>
      CleanupAtLimit(c, w.jobs[id], w.disk, stuck);
      JobNamed(w, w', id);
  }

  lemma StepKeepsLimit(c: Config, w: World, step: Step, w': World)
    requires c.keepSuccessful >= 2 && c.keepBroken >= 2 && LimitInv(c, w) && Takes(c, w, step, w')
    ensures LimitInv(c, w')
  {
    if NextNumber(w.disk) <= MAX_BUILD {
      StepKeepsInv(c, w, step, w');
      InvAtLimit(c, w');
    } else {
      StepAtLimit(c, w, step, w');
    }
  }

  lemma {:induction false} RunKeepsLimit(c: Config, l: Listing, worlds: seq<World>, steps: seq<Step>, i: nat)
    requires c.keepSuccessful >= 2 && c.keepBroken >= 2 && Run(c, l, worlds, steps) && i <= |steps|
    ensures LimitInv(c, worlds[i])
  {
    if i == 0 {
      InvAtLimit(c, worlds[0]);
    } else {
      RunKeepsLimit(c, l, worlds, steps, i - 1);
      assert Takes(c, worlds[i - 1], steps[i - 1], worlds[i]);
      StepKeepsLimit(c, worlds[i - 1], steps[i - 1], worlds[i]);
    }
  }

  // ---- with only one -------------------------------------------------------------------

  /** Of l, at most directories of numbers up to the limit are missing in l'. */
  ghost predicate FilesStay(l: Listing, l': Listing)
  {
    && (forall name :: name in l' ==> name in l && l'[name] == l[name])
    && (forall name :: name in l && name !in l' ==> exists n: nat :: n <= MAX_BUILD + 1 && name == NumberString(n))
  }

  lemma ReadyStays(c: Config, l: Listing, l': Listing)
    requires Ready(c, l) && FilesStay(l, l') && BEYOND in l && l[BEYOND].Directory?
    ensures Ready(c, l')
  {
    forall name | name in l && name !in l' ensures l[name].Directory? {
      var n: nat :| n <= MAX_BUILD + 1 && name == NumberString(n);
      NumberStringRoundTrip(n);
    }
  }

  lemma PruneStaysFiles(b: map<nat, string>, l: Listing, count: nat)
    requires NamedToLimit(b) && count <= |b|
    ensures var r := Prune(b, l, count, map[]);
            r.2 && FilesStay(l, r.1) && r.1 == l - Gone(b, r.0)
  {
    var r := Prune(b, l, count, map[]);
    NothingStuck(b, l, count);
    PruneRemoves(b, l, count, map[]);
    forall name | name in Gone(b, r.0) ensures exists n: nat :: n <= MAX_BUILD + 1 && name == NumberString(n) {
      var n :| n in b && n !in r.0 && b[n] == name;
    }
  }

  /** With one build kept, 1000000 is that one and 999999 goes. */
  lemma LastPruned(b: map<nat, string>, l: Listing)
    requires NamedToLimit(b) && MAX_BUILD in b && MAX_BUILD + 1 in b
    ensures NumberString(MAX_BUILD) !in Prune(b, l, Excess(b, 1), map[]).1
  {
    var count := Excess(b, 1);
    var r := Prune(b, l, count, map[]);
    PruneStaysFiles(b, l, count);
    PruneCounts(b, l, count, map[]);
    PruneLeaves(b, l, count, map[]);
    if MAX_BUILD in r.0 {
      assert MAX_BUILD + 1 in r.0;
      Smaller({MAX_BUILD, MAX_BUILD + 1}, r.0.Keys);
    }
    assert b[MAX_BUILD] in Gone(b, r.0);
  }

  lemma FilesStayTwice(l: Listing, l1: Listing, l2: Listing)
    requires FilesStay(l, l1) && FilesStay(l1, l2)
    ensures FilesStay(l, l2)
  {
    forall name | name in l && name !in l2 ensures exists n: nat :: n <= MAX_BUILD + 1 && name == NumberString(n) {
      if name in l1 { assert name !in l2; }
    }
  }

  lemma CleanupStays(m: Maps, l: Listing, c: Config, cls: Class)
    requires MapsNamed(m) && cls != Pending && Keep(c, cls) == 1
    requires MAX_BUILD in OfClass(m, cls) && MAX_BUILD + 1 in OfClass(m, cls)
    ensures var l' := Cleaned(m, l, c, map[]).1; FilesStay(l, l') && LAST !in l'
  {
    var s := CleanupSuccessful(m, l, c, map[]);
    var b := CleanupBroken(m, s.1, c, map[]);
    PruneStaysFiles(m.successful, l, Excess(m.successful, c.keepSuccessful));
    PruneStaysFiles(m.broken, s.1, Excess(m.broken, c.keepBroken));
    if cls == Successful { LastPruned(m.successful, l); } else { LastPruned(m.broken, s.1); }
    FilesStayTwice(l, s.1, b.1);
  }

  /** Cleaning up those maps puts an end to the limit. */
  lemma CleanupFalls(c: Config, m: Maps, l: Listing, cls: Class)
    requires Ready(c, l) && BEYOND in l && l[BEYOND].Directory? && cls != Pending && Keep(c, cls) == 1
    requires MapsNamed(m) && MAX_BUILD in OfClass(m, cls) && MAX_BUILD + 1 in OfClass(m, cls)
    ensures var l' := Cleaned(m, l, c, map[]).1; Ready(c, l') && NextNumber(l') <= MAX_BUILD
  {
    var l' := Cleaned(m, l, c, map[]).1;
    CleanupStays(m, l, c, cls);
    ReadyStays(c, l, l');
    LastDecides(l');
    NextIsNew(l');
  }

  /** A prepare for the next number, in six digits or not. */
  lemma AddAnyPrepare(c: Config, l: Listing, worlds: seq<World>, steps: seq<Step>, ids: set<nat>, w: World, id: nat)
    returns (worlds': seq<World>, steps': seq<Step>)
    requires RunTo(c, l, worlds, steps, ids, w) && id in w.jobs && id in ids
    requires Ready(c, w.disk) && NumberString(NextNumber(w.disk)) !in w.disk
    ensures RunTo(c, l, worlds', steps', ids, AfterPrepare(c, w, id, NextNumber(w.disk)))
  {
    var n := NextNumber(w.disk);
    CreateWorks(c, w.jobs[id], w.disk, n);
    worlds', steps' := Extend(c, l, worlds, steps, ids, w, Prepare(id, [], "", NO_FAULT, Some(n)),
                              AfterPrepare(c, w, id, n));
  }

  /** The build just prepared runs to class cls. */
  lemma AddRun(c: Config, l: Listing, worlds: seq<World>, steps: seq<Step>, ids: set<nat>, w: World, id: nat,
               n: nat, cls: Class)
    returns (worlds': seq<World>, steps': seq<Step>)
    requires RunTo(c, l, worlds, steps, ids, w) && id in w.jobs && n in w.jobs[id].pending && id in ids
    ensures RunTo(c, l, worlds', steps', ids, AfterRun(w, id, n, cls))
  {
    QuietPrints(CodeOf(cls));
    worlds', steps' := Extend(c, l, worlds, steps, ids, w, Execute(id, n, false, Quiet(CodeOf(cls)), EMPTY_LINE, 0),
                              AfterRun(w, id, n, cls));
  }

  /** Running a build directory that is there makes it one of class cls in the maps and touches no other
      entry of the directory. */
  lemma RunMoves(m: Maps, l: Listing, n: nat, cls: Class)
    requires cls != Pending && n in m.pending && m.pending[n] == NumberString(n)
    requires NumberString(n) in l && l[NumberString(n)].Directory?
    requires MapsNamed(m) && n <= MAX_BUILD + 1
    ensures var m' := ExecuteMaps(m, l, n, false, Quiet(CodeOf(cls)), 0);
            && MapsNamed(m') && n in OfClass(m', cls)
            && forall k :: k in OfClass(m, cls) ==> k in OfClass(m', cls)
    ensures var l' := ExecuteListing(m, l, n, false, Quiet(CodeOf(cls)), EMPTY_LINE);
            && NumberString(n) in l' && l'[NumberString(n)].Directory? && l'.Keys == l.Keys
            && forall name :: name in l && name != NumberString(n) ==> l'[name] == l[name]
  {
    NumberStringRoundTrip(n);
    assert Looked(m, n) == m && Starts(l, NumberString(n), false, Quiet(CodeOf(cls)));
  }

  /** Job object 1 prepares the numbers up to 999998. */
  lemma AddFill(c: Config, l: Listing) returns (worlds: seq<World>, steps: seq<Step>, w: World)
    requires Ready(c, l) && NextNumber(l) <= MAX_BUILD && BEYOND !in l
    ensures RunTo(c, l, worlds, steps, {0, 1}, w)
    ensures Ready(c, w.disk) && NextNumber(w.disk) == MAX_BUILD && BEYOND !in w.disk
  {
    var w0, w1 := World(l, map[], []), World(l, map[1 := Reload(l)], []);
    worlds, steps := Extend(c, l, [w0], [], {0, 1}, w0, Load(1), w1);
    worlds, steps, w := AddPrepares(c, l, worlds, steps, {0, 1}, w1, 1, MAX_BUILD);
  }

  /** Job object 0 builds 999999 as one of class cls. */
  lemma AddLast(c: Config, l: Listing, cls: Class) returns (worlds: seq<World>, steps: seq<Step>, w': World)
    requires Ready(c, l) && NextNumber(l) <= MAX_BUILD && BEYOND !in l && cls != Pending
    ensures RunTo(c, l, worlds, steps, {0, 1}, w') && 0 in w'.jobs
    ensures Ready(c, w'.disk) && NextNumber(w'.disk) == MAX_BUILD + 1 && BEYOND !in w'.disk
    ensures MapsNamed(w'.jobs[0]) && MAX_BUILD in OfClass(w'.jobs[0], cls)
  {
    var w;
    worlds, steps, w := AddFill(c, l);
    LastPrepared(c, w.disk);
    var w1 := WithLoad(w, 0);
    var w2 := AfterPrepare(c, w1, 0, MAX_BUILD);
    LastRan(c, w2.jobs[0], w2.disk, cls);
    worlds, steps := Extend(c, l, worlds, steps, {0, 1}, w, Load(0), w1);
    worlds, steps := AddAnyPrepare(c, l, worlds, steps, {0, 1}, w1, 0);
    worlds, steps := AddRun(c, l, worlds, steps, {0, 1}, w2, 0, MAX_BUILD, cls);
    w' := AfterRun(w2, 0, MAX_BUILD, cls);
  }

  lemma FreshPending(l: Listing, n: nat)
    requires NumberString(n) !in l && n <= MAX_BUILD
    ensures var m := WithPending(Reload(l), n);
            n in m.pending && m.pending[n] == NumberString(n) && MapsNamed(m)
  {
    UnknownNumber(l, n);
    ReloadPartition(l);
    NamedFresh(Reload(l), n);
  }

  lemma NamedFresh(m: Maps, n: nat)
    requires Partition(m) && n <= MAX_BUILD
    ensures MapsNamed(WithPending(m, n))
  {
  }

  /** What is so when 999999 has been prepared ... */
  lemma LastPrepared(c: Config, l: Listing)
    requires Ready(c, l) && NextNumber(l) == MAX_BUILD && BEYOND !in l
    ensures var m, l' := WithPending(Reload(l), MAX_BUILD), WithBuild(c, l, MAX_BUILD);
            && LAST !in l && MAX_BUILD in m.pending && m.pending[MAX_BUILD] == LAST && MapsNamed(m)
            && Ready(c, l') && NextNumber(l') == MAX_BUILD + 1 && BEYOND !in l'
            && LAST in l' && l'[LAST].Directory?
  {
    PrepareWorks(c, Reload(l), l);
    FreshPending(l, MAX_BUILD);
    NumberStringInjective(MAX_BUILD, MAX_BUILD + 1);
  }

  /** ... and has run. */
  lemma LastRan(c: Config, m: Maps, l: Listing, cls: Class)
    requires Ready(c, l) && NextNumber(l) == MAX_BUILD + 1 && BEYOND !in l && cls != Pending
    requires MAX_BUILD in m.pending && m.pending[MAX_BUILD] == LAST && MapsNamed(m) && LAST in l && l[LAST].Directory?
    ensures var m' := ExecuteMaps(m, l, MAX_BUILD, false, Quiet(CodeOf(cls)), 0);
            MapsNamed(m') && MAX_BUILD in OfClass(m', cls)
    ensures var l' := ExecuteListing(m, l, MAX_BUILD, false, Quiet(CodeOf(cls)), EMPTY_LINE);
            Ready(c, l') && NextNumber(l') == MAX_BUILD + 1 && BEYOND !in l'
  {
    RunAs(c, m, l, MAX_BUILD, cls);
    RunMoves(m, l, MAX_BUILD, cls);
  }

  /** Then it builds 1000000 as one of the same class. */
  lemma AddBeyond(c: Config, l: Listing, cls: Class) returns (worlds: seq<World>, steps: seq<Step>, w': World)
    requires Ready(c, l) && NextNumber(l) <= MAX_BUILD && BEYOND !in l && cls != Pending
    ensures RunTo(c, l, worlds, steps, {0, 1}, w') && 0 in w'.jobs
    ensures Ready(c, w'.disk) && BEYOND in w'.disk && w'.disk[BEYOND].Directory?
    ensures MapsNamed(w'.jobs[0]) && MAX_BUILD in OfClass(w'.jobs[0], cls) && MAX_BUILD + 1 in OfClass(w'.jobs[0], cls)
    ensures MAX_BUILD + 1 in w'.given
  {
    var w;
    worlds, steps, w := AddLast(c, l, cls);
    var w1 := AfterPrepare(c, w, 0, MAX_BUILD + 1);
    PreparedBeyond(c, w.jobs[0], w.disk);
    RanBeyond(c, w1.jobs[0], w1.disk, cls);
    worlds, steps := AddAnyPrepare(c, l, worlds, steps, {0, 1}, w, 0);
    worlds, steps := AddRun(c, l, worlds, steps, {0, 1}, w1, 0, MAX_BUILD + 1, cls);
    w' := AfterRun(w1, 0, MAX_BUILD + 1, cls);
    assert w'.given == w.given + [MAX_BUILD + 1];
  }

  lemma NamedBeyond(m: Maps)
    requires MapsNamed(m)
    ensures var m' := WithPending(m, MAX_BUILD + 1);
            MAX_BUILD + 1 in m'.pending && m'.pending[MAX_BUILD + 1] == BEYOND && MapsNamed(m')
  {
  }

  lemma PreparedBeyond(c: Config, m: Maps, l: Listing)
    requires Ready(c, l) && BEYOND !in l && MapsNamed(m)
    ensures var m', l' := WithPending(m, MAX_BUILD + 1), WithBuild(c, l, MAX_BUILD + 1);
            && MAX_BUILD + 1 in m'.pending && m'.pending[MAX_BUILD + 1] == BEYOND && MapsNamed(m')
            && Ready(c, l') && BEYOND in l' && l'[BEYOND].Directory?
  {
    NamedBeyond(m);
    NumberStringRoundTrip(MAX_BUILD + 1);
  }

  lemma RanBeyond(c: Config, m: Maps, l: Listing, cls: Class)
    requires Ready(c, l) && BEYOND in l && l[BEYOND].Directory? && cls != Pending && MapsNamed(m)
    requires MAX_BUILD + 1 in m.pending && m.pending[MAX_BUILD + 1] == BEYOND && MAX_BUILD in OfClass(m, cls)
    ensures var m' := ExecuteMaps(m, l, MAX_BUILD + 1, false, Quiet(CodeOf(cls)), 0);
            MapsNamed(m') && MAX_BUILD in OfClass(m', cls) && MAX_BUILD + 1 in OfClass(m', cls)
    ensures var l' := ExecuteListing(m, l, MAX_BUILD + 1, false, Quiet(CodeOf(cls)), EMPTY_LINE);
            Ready(c, l') && BEYOND in l' && l'[BEYOND].Directory?
  {
    RunMoves(m, l, MAX_BUILD + 1, cls);
  }

  /** With one build kept of some class there is a run that gives out 1000000 and then a number that is
      not greater: builds 999999 and 1000000 are of that class, and cleanup keeps only the second. */
  lemma BeyondFalls(c: Config, l: Listing, cls: Class) returns (worlds: seq<World>, steps: seq<Step>)
    requires Ready(c, l) && NextNumber(l) <= MAX_BUILD && BEYOND !in l && cls != Pending && Keep(c, cls) == 1
    ensures Run(c, l, worlds, steps) && !Ascending(worlds[|steps|].given)
  {
    var w;
    worlds, steps, w := AddBeyond(c, l, cls);
    var r := Cleaned(w.jobs[0], w.disk, c, map[]);
    var w1 := World(r.1, w.jobs[0 := r.0], w.given);
    CleanupFalls(c, w.jobs[0], w.disk, cls);
    worlds, steps := Extend(c, l, worlds, steps, {0, 1}, w, Cleanup(0, map[]), w1);
    PrepareWorks(c, r.0, r.1);
    worlds, steps := AddAnyPrepare(c, l, worlds, steps, {0, 1}, w1, 0);
    NotAscending(w.given, MAX_BUILD + 1, NextNumber(r.1));
  }

  lemma NotAscending(s: seq<nat>, n: nat, k: nat)
    requires n in s && k <= n
    ensures !Ascending(s + [k])
  {
    var i :| 0 <= i < |s| && s[i] == n;
    assert (s + [k])[i] == n && (s + [k])[|s|] == k;
  }

  ghost predicate AllRunsAscendAnyway(c: Config, l: Listing)
  {
    forall worlds: seq<World>, steps: seq<Step> :: Run(c, l, worlds, steps) ==> Ascending(worlds[|steps|].given)
  }

  /** Whether or not the numbers run out, they only grow over all runs exactly when at least two builds of
      each class are kept. */
  lemma AscendAnywayExactly(c: Config, l: Listing)
    requires Ready(c, l) && NextNumber(l) <= MAX_BUILD && BEYOND !in l
    ensures AllRunsAscendAnyway(c, l) <==> c.keepSuccessful >= 2 && c.keepBroken >= 2
  {
    if c.keepSuccessful >= 2 && c.keepBroken >= 2 {
      forall worlds: seq<World>, steps: seq<Step> | Run(c, l, worlds, steps)
        ensures Ascending(worlds[|steps|].given)
      {
        RunKeepsLimit(c, l, worlds, steps, |steps|);
      }
    } else if c.keepSuccessful == 0 || c.keepBroken == 0 {
      var worlds, steps := ZeroKeepReuses(c, l, 0);
      var given := worlds[|steps|].given;
      assert !(given[0] < given[|given| - 1]);
    } else {
      var cls := if c.keepSuccessful == 1 then Successful else Broken;
      var worlds, steps := BeyondFalls(c, l, cls);
    }
  }
}
