/** Runs in which prepare_build is not one step: a process lists the directory for its number first, and
    other processes may do anything before it creates the build. What then keeps two builds from one
    number is that copying the script refuses to overwrite a file. */
module BuildRaces {
  import opened Text
  import opened Numbers
  import opened ParamCodec
  import opened Builds
  import opened JobStore
  import opened BuildLaws
  import opened BuildRuns

  /** listed has the numbers that job objects in the middle of prepare_build have settled on. */
  datatype Race = Race(world: World, listed: map<nat, nat>)

  datatype Move =
    | List(id: nat)
    | Create(id: nat, params: seq<Pair>, session: string, f: PrepareFaults, number: Option<nat>)
    | Other(step: Step)

  ghost predicate Goes(c: Config, r: Race, move: Move, r': Race)
  {
    match move
    case List(id) =>
      && id in r.world.jobs && id !in r.listed
      && r' == r.(listed := r.listed[id := NextNumber(r.world.disk)])
    case Create(id, params, session, f, number) =>
      && id in r.listed && Creates(c, r.world, r.listed[id], move, r'.world)
      && r'.listed == r.listed - {id}
    case Other(step) =>
      && !step.Prepare? && step.id !in r.listed && Takes(c, r.world, step, r'.world)
      && r'.listed == r.listed
  }

  /** The second half of prepare_build for number n. */
  ghost predicate Creates(c: Config, w: World, n: nat, move: Move, w': World)
    requires move.Create?
  {
    && move.id in w.jobs && move.id in w'.jobs && w'.jobs == w.jobs[move.id := w'.jobs[move.id]]
    && PreparedAs(n, w.jobs[move.id], w.disk, w'.jobs[move.id], w'.disk, move.number, c.script, move.params,
                  move.session, move.f)
    && w'.given == if move.number.Some? then w.given + [n] else w.given
  }

  /** A build directory with the script in it: copying the script there fails. */
  predicate Taken(c: Config, l: Listing, n: nat)
  {
    NumberString(n) in l && l[NumberString(n)].Directory? && c.script in l[NumberString(n)].files
  }

  /** No cleanup is about to touch a finished preparation of a number that a process has settled on. */
  ghost predicate Careful(c: Config, r: Race, move: Move)
  {
    move.Other? && move.step.Cleanup? && move.step.id in r.world.jobs ==>
      forall id :: id in r.listed && Taken(c, r.world.disk, r.listed[id]) ==>
        Spares(c, r.world.jobs[move.step.id], r.listed[id])
  }

  ghost predicate RoomToList(r: Race, move: Move) { move.List? ==> NextNumber(r.world.disk) <= MAX_BUILD }

  predicate Distinct(s: seq<nat>) { forall i, j :: 0 <= i < j < |s| ==> s[i] != s[j] }

  /** No given number that a process has settled on could be created again. */
  ghost predicate GivenTaken(c: Config, r: Race)
  {
    forall id :: id in r.listed && r.listed[id] in r.world.given ==> Taken(c, r.world.disk, r.listed[id])
  }

  ghost predicate GivenBelow(w: World) { forall n :: n in w.given ==> n < NextNumber(w.disk) }

  ghost predicate JobsFine(w: World)
  {
    forall id :: id in w.jobs ==> Partition(w.jobs[id]) && Behind(w.jobs[id], w.disk)
  }

  /** What has been listed is new to the maps of the one that listed it, and not beyond the next number. */
  ghost predicate ListedFine(r: Race, low: nat)
  {
    forall id :: id in r.listed ==>
      && id in r.world.jobs && !Finished(r.world.jobs[id], r.listed[id])
      && low <= r.listed[id] <= NextNumber(r.world.disk) && r.listed[id] <= MAX_BUILD
  }

  /** The invariant of careful runs that began with low as the next number. */
  ghost predicate RaceInv(c: Config, r: Race, low: nat)
  {
    && Distinct(r.world.given) && GivenBelow(r.world) && GivenTaken(c, r)
    && JobsFine(r.world) && ListedFine(r, low) && low <= NextNumber(r.world.disk)
    && forall n :: n in r.world.given ==> n >= low
  }

  // ---- the moves keep the invariant ----------------------------------------------------

  lemma ListKeeps(c: Config, r: Race, id: nat, r': Race, low: nat)
    requires RaceInv(c, r, low) && Goes(c, r, List(id), r') && RoomToList(r, List(id))
    ensures RaceInv(c, r', low)
  {
    assert Behind(r.world.jobs[id], r.world.disk);
  }

  /** A build directory for a number that is not above the next one. */
  lemma PutBelow(l: Listing, n: nat, files: map<string, string>)
    requires n <= NextNumber(l) && n <= MAX_BUILD && !HasFile(l, NumberString(n))
    ensures var l' := l[NumberString(n) := Directory(files)];
            Grows(l, l') && n < NextNumber(l')
  {
    if n == NextNumber(l) {
      PutGrows(l, files);
    } else {
      var l' := l[NumberString(n) := Directory(files)];
      DirsAfterPut(l, n, files);
      assert NextNumber(l) - 1 in BuildDirs(l);
      GreatestIs(BuildDirs(l) + {n}, NextNumber(l) - 1);
      assert forall name :: HasFile(l, name) ==> HasFile(l', name);
    }
  }

  lemma CreatedGrows(n: nat, m: Maps, l: Listing, m': Maps, l': Listing, number: Option<nat>,
                     script: string, params: seq<Pair>, session: string, f: PrepareFaults)
    requires PreparedAs(n, m, l, m', l', number, script, params, session, f)
    requires n <= NextNumber(l) && n <= MAX_BUILD
    ensures Grows(l, l') && (number.Some? ==> n < NextNumber(l'))
  {
    var dir := NumberString(n);
    if number.Some? {
      PutBelow(l, n, Filled(FilesIn(l, dir), l, script, params, session));
    } else if !f.createDir && !HasFile(l, dir) {
      var files := FilesLeft(FilesIn(l, dir), l, script, params, PrepareError(l, script, dir, f));
      PutBelow(l, n, files);
    }
  }

  /** The maps with a pending build that none of the finished maps has. */
  lemma PendingFits(m: Maps, l: Listing, n: nat)
    requires Partition(m) && Behind(m, l) && !Finished(m, n) && n <= MAX_BUILD && n < NextNumber(l)
    ensures Partition(WithPending(m, n)) && Behind(WithPending(m, n), l)
  {
    assert forall k: nat :: Finished(WithPending(m, n), k) <==> Finished(m, k);
  }

  lemma CreatedMaps(n: nat, m: Maps, l: Listing, m': Maps, l': Listing, number: Option<nat>,
                    script: string, params: seq<Pair>, session: string, f: PrepareFaults)
    requires PreparedAs(n, m, l, m', l', number, script, params, session, f)
    requires n <= NextNumber(l) && n <= MAX_BUILD && Partition(m) && Behind(m, l) && !Finished(m, n)
    ensures Partition(m') && Behind(m', l') && m'.successful == m.successful && m'.broken == m.broken
  {
    CreatedGrows(n, m, l, m', l', number, script, params, session, f);
    BehindGrows(m, l, l');
    if number.Some? { PendingFits(m, l', n); }
  }

  /** Creating a build, or failing to, leaves every taken directory taken, and its own if it succeeds. */
  lemma CreatedTaken(c: Config, n: nat, m: Maps, l: Listing, m': Maps, l': Listing, number: Option<nat>,
                     params: seq<Pair>, session: string, f: PrepareFaults, k: nat)
    requires PreparedAs(n, m, l, m', l', number, c.script, params, session, f)
    ensures Taken(c, l, k) ==> Taken(c, l', k)
    ensures number.Some? ==> Taken(c, l', n) && !Taken(c, l, n)
  {
    NumberStringInjective(n, k);
  }

  lemma DistinctSnoc(s: seq<nat>, n: nat)
    requires Distinct(s) && n !in s
    ensures Distinct(s + [n])
  {
  }

  lemma CreateKeepsGiven(c: Config, r: Race, move: Move, r': Race, low: nat)
    requires move.Create? && RaceInv(c, r, low) && Goes(c, r, move, r')
    ensures Distinct(r'.world.given) && GivenTaken(c, r')
  {
    var n, w, w' := r.listed[move.id], r.world, r'.world;
    forall k: nat
      ensures Taken(c, w.disk, k) ==> Taken(c, w'.disk, k)
      ensures move.number.Some? ==> Taken(c, w'.disk, n) && !Taken(c, w.disk, n)
    {
      CreatedTaken(c, n, w.jobs[move.id], w.disk, w'.jobs[move.id], w'.disk, move.number, move.params, move.session,
                   move.f, k);
    }
    if move.number.Some? { DistinctSnoc(w.given, n); }
  }

  lemma CreateKeepsMaps(c: Config, r: Race, move: Move, r': Race, low: nat)
    requires move.Create? && RaceInv(c, r, low) && Goes(c, r, move, r')
    ensures Grows(r.world.disk, r'.world.disk) && JobsFine(r'.world) && ListedFine(r', low) && GivenBelow(r'.world)
  {
    var n, w, w' := r.listed[move.id], r.world, r'.world;
    var m, m' := w.jobs[move.id], w'.jobs[move.id];
    CreatedGrows(n, m, w.disk, m', w'.disk, move.number, c.script, move.params, move.session, move.f);
    CreatedMaps(n, m, w.disk, m', w'.disk, move.number, c.script, move.params, move.session, move.f);
    JobsStayFine(w, w', move.id);
  }

  lemma CreateKeeps(c: Config, r: Race, move: Move, r': Race, low: nat)
    requires move.Create? && RaceInv(c, r, low) && Goes(c, r, move, r')
    ensures RaceInv(c, r', low)
  {
    CreateKeepsGiven(c, r, move, r', low);
    CreateKeepsMaps(c, r, move, r', low);
  }

  lemma JobsStayFine(w: World, w': World, id: nat)
    requires JobsFine(w) && Grows(w.disk, w'.disk) && id in w'.jobs && w'.jobs == w.jobs[id := w'.jobs[id]]
    requires Partition(w'.jobs[id]) && Behind(w'.jobs[id], w'.disk)
    ensures JobsFine(w')
  {
    forall k | k in w'.jobs
      ensures Partition(w'.jobs[k]) && Behind(w'.jobs[k], w'.disk)
    {
      if k != id { BehindGrows(w.jobs[k], w.disk, w'.disk); }
    }
  }

  lemma ExecuteTaken(c: Config, m: Maps, l: Listing, n: nat, force: bool, env: ExecuteEnv, lines: seq<string>, k: nat)
    requires Taken(c, l, k)
    ensures Taken(c, ExecuteListing(m, l, n, force, env, lines), k)
  {
  }

  /** A step that is no prepare does to the maps and the next number what it does in any run. */
  lemma OtherKeepsJobs(c: Config, w: World, step: Step, w': World)
    requires c.keepSuccessful >= 1 && c.keepBroken >= 1
    requires JobsFine(w) && Takes(c, w, step, w') && !step.Prepare?
    ensures JobsFine(w') && NextNumber(w.disk) <= NextNumber(w'.disk) && w'.given == w.given
    ensures step.id in w'.jobs && w'.jobs == w.jobs[step.id := w'.jobs[step.id]]
  {
    StepKeepsInv(c, w.(given := []), step, w'.(given := []));
  }

  lemma OtherKeepsTaken(c: Config, r: Race, step: Step, r': Race, id: nat)
    requires JobsFine(r.world) && Goes(c, r, Other(step), r') && Careful(c, r, Other(step)) && id in r.listed
    ensures Taken(c, r.world.disk, r.listed[id]) ==> Taken(c, r'.world.disk, r.listed[id])
  {
    var w, n := r.world, r.listed[id];
    if Taken(c, w.disk, n) {
      match step
      case Load(_) =>
      case Execute(_, k, force, env, lines, _) => ExecuteTaken(c, w.jobs[step.id], w.disk, k, force, env, lines, n);
      case Cleanup(_, stuck) => 
        CleanupSpares(w.jobs[step.id], w.disk, c, stuck, n, w.disk[NumberString(n)]);
    }
  }

  lemma OtherKeepsGiven(c: Config, r: Race, step: Step, r': Race)
    requires GivenTaken(c, r) && JobsFine(r.world) && r'.world.given == r.world.given
    requires Goes(c, r, Other(step), r') && Careful(c, r, Other(step))
    ensures GivenTaken(c, r')
  {
    forall id | id in r.listed && r.listed[id] in r.world.given
      ensures Taken(c, r'.world.disk, r.listed[id])
    {
      OtherKeepsTaken(c, r, step, r', id);
    }
  }

  lemma OtherKeepsListed(r: Race, id: nat, r': Race, low: nat)
    requires ListedFine(r, low) && NextNumber(r.world.disk) <= NextNumber(r'.world.disk)
    requires r'.listed == r.listed && id !in r.listed
    requires id in r'.world.jobs && r'.world.jobs == r.world.jobs[id := r'.world.jobs[id]]
    ensures ListedFine(r', low)
  {
  }

  lemma OtherKeeps(c: Config, r: Race, step: Step, r': Race, low: nat)
    requires c.keepSuccessful >= 1 && c.keepBroken >= 1
    requires RaceInv(c, r, low) && Goes(c, r, Other(step), r') && Careful(c, r, Other(step))
    ensures RaceInv(c, r', low)
  {
    OtherKeepsJobs(c, r.world, step, r'.world);
    OtherKeepsGiven(c, r, step, r');
    OtherKeepsListed(r, step.id, r', low);
  }

  // ---- runs ----------------------------------------------------------------------------

  /** The move at i leads from one state to the next, and finds a number left if it lists. */
  ghost predicate GoesAt(c: Config, races: seq<Race>, moves: seq<Move>, i: nat)
    requires |races| == |moves| + 1 && i < |moves|
  {
    Goes(c, races[i], moves[i], races[i + 1]) && RoomToList(races[i], moves[i])
  }

  ghost predicate RaceRun(c: Config, l: Listing, races: seq<Race>, moves: seq<Move>)
  {
    && |races| == |moves| + 1 && races[0] == Race(World(l, map[], []), map[])
    && forall i :: 0 <= i < |moves| ==> GoesAt(c, races, moves, i)
  }

  ghost predicate CarefulThroughout(c: Config, races: seq<Race>, moves: seq<Move>)
    requires |races| == |moves| + 1
  {
    forall i :: 0 <= i < |moves| ==> Careful(c, races[i], moves[i])
  }

  lemma MoveKeepsInv(c: Config, r: Race, move: Move, r': Race, low: nat)
    requires c.keepSuccessful >= 1 && c.keepBroken >= 1
    requires RaceInv(c, r, low) && Goes(c, r, move, r') && RoomToList(r, move) && Careful(c, r, move)
    ensures RaceInv(c, r', low)
  {
    match move
    case List(id) => ListKeeps(c, r, id, r', low);
    case Create(_, _, _, _, _) => CreateKeeps(c, r, move, r', low);
    case Other(step) => OtherKeeps(c, r, step, r', low);
  }

  lemma {:induction false} RaceKeepsInv(c: Config, l: Listing, races: seq<Race>, moves: seq<Move>, i: nat)
    requires c.keepSuccessful >= 1 && c.keepBroken >= 1
    requires RaceRun(c, l, races, moves) && CarefulThroughout(c, races, moves) && i <= |moves|
    ensures RaceInv(c, races[i], NextNumber(l))
  {
    if i > 0 {
      RaceKeepsInv(c, l, races, moves, i - 1);
      assert GoesAt(c, races, moves, i - 1) && Careful(c, races[i - 1], moves[i - 1]);
      MoveKeepsInv(c, races[i - 1], moves[i - 1], races[i], NextNumber(l));
    }
  }

  /** However the processes interleave, as long as cleanups are careful no number is given out twice, all
      exceed the builds that were there, and the maps of every job object stay a partition. */
  lemma RacesStayDistinct(c: Config, l: Listing, races: seq<Race>, moves: seq<Move>)
    requires c.keepSuccessful >= 1 && c.keepBroken >= 1
    requires RaceRun(c, l, races, moves) && CarefulThroughout(c, races, moves)
    ensures var w := races[|moves|].world;
            && Distinct(w.given)
            && (forall n, d :: n in w.given && d in BuildDirs(l) ==> d < n)
            && (forall id :: id in w.jobs ==> Partition(w.jobs[id]))
  {
    RaceKeepsInv(c, l, races, moves, |moves|);
  }

  // ---- a careless cleanup --------------------------------------------------------------

  ghost predicate RaceTo(c: Config, l: Listing, races: seq<Race>, moves: seq<Move>, r: Race)
  {
    RaceRun(c, l, races, moves) && races[|moves|] == r
  }

  lemma AddMove(c: Config, l: Listing, races: seq<Race>, moves: seq<Move>, r: Race, move: Move, r': Race)
    returns (races': seq<Race>, moves': seq<Move>)
    requires RaceTo(c, l, races, moves, r) && Goes(c, r, move, r') && RoomToList(r, move)
    ensures RaceTo(c, l, races', moves', r')
    ensures CarefulThroughout(c, races, moves) && Careful(c, r, move) ==> CarefulThroughout(c, races', moves')
  {
    races', moves' := races + [r'], moves + [move];
    forall i | 0 <= i < |moves'|
      ensures GoesAt(c, races', moves', i)
    {
      if i < |moves| { assert GoesAt(c, races, moves, i); }
    }
    forall i | 0 <= i < |moves'| && CarefulThroughout(c, races, moves) && Careful(c, r, move)
      ensures Careful(c, races'[i], moves'[i])
    {
      if i < |moves| { assert Careful(c, races[i], moves[i]); }
    }
  }

  /** Job object id has loaded the directory. */
  function WithLoad(w: World, id: nat): World { w.(jobs := w.jobs[id := Reload(w.disk)]) }

  lemma AddListing(c: Config, l: Listing, races: seq<Race>, moves: seq<Move>, r: Race, id: nat)
    returns (races': seq<Race>, moves': seq<Move>)
    requires RaceTo(c, l, races, moves, r) && id !in r.listed && NextNumber(r.world.disk) <= MAX_BUILD
    ensures RaceTo(c, l, races', moves', Race(WithLoad(r.world, id), r.listed[id := NextNumber(r.world.disk)]))
  {
    races', moves' := AddMove(c, l, races, moves, r, Other(Load(id)), Race(WithLoad(r.world, id), r.listed));
    races', moves' := AddMove(c, l, races', moves', Race(WithLoad(r.world, id), r.listed), List(id),
                              Race(WithLoad(r.world, id), r.listed[id := NextNumber(r.world.disk)]));
  }

  /** Nothing stands in the way of a build whose directory is not there. */
  lemma CreateWorks(c: Config, m: Maps, l: Listing, n: nat)
    requires Ready(c, l) && NumberString(n) !in l
    ensures PreparedAs(n, m, l, WithPending(m, n), WithBuild(c, l, n), Some(n), c.script, [], "", NO_FAULT)
  {
  }

  lemma AddCreate(c: Config, l: Listing, races: seq<Race>, moves: seq<Move>, r: Race, id: nat, n: nat)
    returns (races': seq<Race>, moves': seq<Move>)
    requires RaceTo(c, l, races, moves, r) && id in r.listed && r.listed[id] == n && id in r.world.jobs
    requires Ready(c, r.world.disk) && NumberString(n) !in r.world.disk
    ensures RaceTo(c, l, races', moves', Race(AfterPrepare(c, r.world, id, n), r.listed - {id}))
  {
    CreateWorks(c, r.world.jobs[id], r.world.disk, n);
    races', moves' := AddMove(c, l, races, moves, r, Create(id, [], "", NO_FAULT, Some(n)),
                              Race(AfterPrepare(c, r.world, id, n), r.listed - {id}));
  }

  /** The build that has just been prepared runs to class cls. */
  ghost function AfterRun(w: World, id: nat, n: nat, cls: Class): World
    requires id in w.jobs
  {
    var m, env := w.jobs[id], Quiet(CodeOf(cls));
    World(ExecuteListing(m, w.disk, n, false, env, EMPTY_LINE),
          w.jobs[id := ExecuteMaps(m, w.disk, n, false, env, 0)], w.given)
  }

  ghost predicate AllIn(l: Listing, low: nat, high: nat, cls: Class)
  {
    forall n :: low <= n < high ==> InClass(l, n, cls)
  }

  lemma RunShows(c: Config, w: World, id: nat, low: nat, cls: Class)
    requires Ready(c, w.disk) && NextNumber(w.disk) <= MAX_BUILD && cls != Pending
    requires AllIn(w.disk, low, NextNumber(w.disk), cls)
    ensures var n := NextNumber(w.disk);
            var w1 := AfterPrepare(c, WithLoad(w, id), id, n);
            var w' := AfterRun(w1, id, n, cls);
            && NumberString(n) !in w.disk && n in w1.jobs[id].pending
            && Ready(c, w'.disk) && NextNumber(w'.disk) == n + 1 && AllIn(w'.disk, low, n + 1, cls)
  {
    var n := NextNumber(w.disk);
    var w1 := AfterPrepare(c, WithLoad(w, id), id, n);
    PrepareWorks(c, Reload(w.disk), w.disk);
    UnknownNumber(w.disk, n);
    RunAs(c, w1.jobs[id], w1.disk, n, cls);
    RunKeeps(c, w.disk, w1.jobs[id], n, low, cls);
  }

  /** Preparing and running build n touches no other entry. */
  lemma RunKeeps(c: Config, l: Listing, m: Maps, n: nat, low: nat, cls: Class)
    requires HasFile(l, c.script) && HasFile(l, "job.conf") && AllIn(l, low, n, cls)
    requires n in m.pending && m.pending[n] == NumberString(n)
    requires InClass(ExecuteListing(m, WithBuild(c, l, n), n, false, Quiet(CodeOf(cls)), EMPTY_LINE), n, cls)
    ensures AllIn(ExecuteListing(m, WithBuild(c, l, n), n, false, Quiet(CodeOf(cls)), EMPTY_LINE), low, n + 1, cls)
  {
    forall k | low <= k < n
      ensures InClass(ExecuteListing(m, WithBuild(c, l, n), n, false, Quiet(CodeOf(cls)), EMPTY_LINE), k, cls)
    {
      NumberStringInjective(n, k);
      assert InClass(l, k, cls);
    }
  }

  /** A job object that has listed the directory creates a build with the number it found. */
  lemma AddFreshBuild(c: Config, l: Listing, races: seq<Race>, moves: seq<Move>, r: Race, id: nat, n: nat, w: World)
    returns (races': seq<Race>, moves': seq<Move>)
    requires RaceTo(c, l, races, moves, r) && id !in r.listed && w == WithLoad(r.world, id)
    requires Ready(c, w.disk) && n == NextNumber(w.disk) <= MAX_BUILD && NumberString(n) !in w.disk
    ensures RaceTo(c, l, races', moves', Race(AfterPrepare(c, w, id, n), r.listed))
  {
    var listed := r.listed[id := n];
    assert listed - {id} == r.listed;
    races', moves' := AddListing(c, l, races, moves, r, id);
    races', moves' := AddCreate(c, l, races', moves', Race(w, listed), id, n);
  }

  /** The moves of one more build of job object 0, which leave the world w1 when it is prepared. */
  lemma AddBuildMoves(c: Config, l: Listing, races: seq<Race>, moves: seq<Move>, r: Race, n: nat, cls: Class, w1: World)
    returns (races': seq<Race>, moves': seq<Move>)
    requires RaceTo(c, l, races, moves, r) && 0 !in r.listed && Ready(c, r.world.disk)
    requires n == NextNumber(r.world.disk) <= MAX_BUILD && NumberString(n) !in r.world.disk
    requires w1 == AfterPrepare(c, WithLoad(r.world, 0), 0, n) && n in w1.jobs[0].pending
    ensures RaceTo(c, l, races', moves', Race(AfterRun(w1, 0, n, cls), r.listed))
  {
    races', moves' := AddFreshBuild(c, l, races, moves, r, 0, n, WithLoad(r.world, 0));
    RunGoes(c, w1, 0, n, r.listed, cls);
    races', moves' := AddMove(c, l, races', moves', Race(w1, r.listed),
                              Other(Execute(0, n, false, Quiet(CodeOf(cls)), EMPTY_LINE, 0)),
                              Race(AfterRun(w1, 0, n, cls), r.listed));
  }

  /** One more build of job object 0. */
  lemma AddBuild(c: Config, l: Listing, races: seq<Race>, moves: seq<Move>, r: Race, low: nat, cls: Class)
    returns (races': seq<Race>, moves': seq<Move>, w': World)
    requires RaceTo(c, l, races, moves, r) && 0 !in r.listed && cls != Pending
    requires Ready(c, r.world.disk) && NextNumber(r.world.disk) <= MAX_BUILD
    requires AllIn(r.world.disk, low, NextNumber(r.world.disk), cls)
    ensures RaceTo(c, l, races', moves', Race(w', r.listed))
    ensures Ready(c, w'.disk) && NextNumber(w'.disk) == NextNumber(r.world.disk) + 1
    ensures AllIn(w'.disk, low, NextNumber(w'.disk), cls) && w'.given == r.world.given + [NextNumber(r.world.disk)]
    ensures w'.jobs.Keys == r.world.jobs.Keys + {0}
  {
    var n := NextNumber(r.world.disk);
    var w1 := AfterPrepare(c, WithLoad(r.world, 0), 0, n);
    w' := AfterRun(w1, 0, n, cls);
    RunShows(c, r.world, 0, low, cls);
    races', moves' := AddBuildMoves(c, l, races, moves, r, n, cls, w1);
  }

  lemma RunGoes(c: Config, w: World, id: nat, n: nat, listed: map<nat, nat>, cls: Class)
    requires id in w.jobs && n in w.jobs[id].pending && id !in listed
    ensures Goes(c, Race(w, listed), Other(Execute(id, n, false, Quiet(CodeOf(cls)), EMPTY_LINE, 0)),
                 Race(AfterRun(w, id, n, cls), listed))
  {
    QuietPrints(CodeOf(cls));
  }

  /** Builds of job object 0 until high is the next number. */
  lemma {:induction false} AddBuilds(c: Config, l: Listing, races: seq<Race>, moves: seq<Move>, r: Race,
                                     low: nat, high: nat, cls: Class)
    returns (races': seq<Race>, moves': seq<Move>, w': World)
    requires RaceTo(c, l, races, moves, r) && 0 !in r.listed && cls != Pending
    requires Ready(c, r.world.disk) && NextNumber(r.world.disk) <= high <= MAX_BUILD + 1
    requires AllIn(r.world.disk, low, NextNumber(r.world.disk), cls)
    ensures RaceTo(c, l, races', moves', Race(w', r.listed))
    ensures Ready(c, w'.disk) && NextNumber(w'.disk) == high && AllIn(w'.disk, low, high, cls)
    ensures r.world.given <= w'.given && r.world.jobs.Keys <= w'.jobs.Keys
    ensures NextNumber(r.world.disk) < high ==> r.world.given + [NextNumber(r.world.disk)] <= w'.given
    decreases high - NextNumber(r.world.disk)
  {
    if NextNumber(r.world.disk) == high {
      return races, moves, r.world;
    }
    races', moves', w' := AddBuild(c, l, races, moves, r, low, cls);
    races', moves', w' := AddBuilds(c, l, races', moves', Race(w', r.listed), low, high, cls);
  }

  /** How many builds of a finished class are kept. */
  function Keep(c: Config, cls: Class): nat { if cls == Successful then c.keepSuccessful else c.keepBroken }

  /** With more builds of its class above it than are kept, build n is cleaned up. */
  lemma OldestCleaned(c: Config, l: Listing, n: nat, cls: Class)
    requires cls != Pending && AllIn(l, n, n + Keep(c, cls) + 1, cls)
    ensures var l' := Cleaned(Reload(l), l, c, map[]).1;
            BuildsGone(l, l') && NumberString(n) !in l'
  {
    var m := Reload(l);
    ReloadPartition(l);
    var s := CleanupSuccessful(m, l, c, map[]);
    if cls == Successful {
      OldestPruned(l, l, m.successful, n, c.keepSuccessful, cls);
      PruneClears(m.broken, s.1, Excess(m.broken, c.keepBroken));
    } else {
      PruneClears(m.successful, l, Excess(m.successful, c.keepSuccessful));
      OldestPruned(l, s.1, m.broken, n, c.keepBroken, cls);
    }
  }

  lemma OldestPruned(l: Listing, l1: Listing, b: map<nat, string>, n: nat, keep: nat, cls: Class)
    requires AllIn(l, n, n + keep + 1, cls) && b == BuildsOf(l, cls)
    ensures var r := Prune(b, l1, Excess(b, keep), map[]);
            r.2 && BuildsGone(l1, r.1) && NumberString(n) !in r.1
  {
    var count := Excess(b, keep);
    var r := Prune(b, l1, count, map[]);
    BuildsAre(l, cls);
    PruneClears(b, l1, count);
    PruneLeaves(b, l1, count, map[]);
    PruneCounts(b, l1, count, map[]);
    OutOfNewest(l, n, r.0, keep, cls);
    PruneRemoves(b, l1, count, map[]);
    assert b[n] in Gone(b, r.0);
  }

  lemma OutOfNewest(l: Listing, n: nat, kept: map<nat, string>, keep: nat, cls: Class)
    requires AllIn(l, n, n + keep + 1, cls) && KeepsNewest(BuildsOf(l, cls), kept, keep)
    ensures n in BuildsOf(l, cls) && n !in kept
  {
    BuildsAre(l, cls);
    assert InClass(l, n, cls);
    if n in kept {
      forall k | k in NumbersFrom(n, keep + 1) ensures k in kept {
        assert InClass(l, k, cls);
      }
      Smaller(NumbersFrom(n, keep + 1), kept.Keys);
    }
  }

  /** The k numbers from n on. */
  function NumbersFrom(n: nat, k: nat): (r: set<nat>)
    ensures |r| == k && forall x :: x in r <==> n <= x < n + k
  {
    if k == 0 then {} else NumbersFrom(n, k - 1) + {n + k - 1}
  }

  /** Job object 0 loads and cleans up; the directory of n is gone. */
  lemma AddCareless(c: Config, l: Listing, races: seq<Race>, moves: seq<Move>, r: Race, n: nat, cls: Class)
    returns (races': seq<Race>, moves': seq<Move>, w': World)
    requires RaceTo(c, l, races, moves, r) && 0 !in r.listed && cls != Pending
    requires Ready(c, r.world.disk) && AllIn(r.world.disk, n, n + Keep(c, cls) + 1, cls)
    ensures RaceTo(c, l, races', moves', Race(w', r.listed))
    ensures Ready(c, w'.disk) && NumberString(n) !in w'.disk && w'.given == r.world.given
    ensures r.world.jobs.Keys <= w'.jobs.Keys
  {
    w' := AfterCleanup(c, r.world, 0);
    CleanAfterLoad(c, r.world, 0);
    OldestCleaned(c, r.world.disk, n, cls);
    races', moves' := AddMove(c, l, races, moves, r, Other(Load(0)), Race(WithLoad(r.world, 0), r.listed));
    races', moves' := AddMove(c, l, races', moves', Race(WithLoad(r.world, 0), r.listed), Other(Cleanup(0, map[])),
                              Race(w', r.listed));
  }

  /** What the hypothesis on cleanups excludes: job object 1 settles on a number, job object 0 builds it
      and as many more of one class as are kept of it, and cleans it up; then job object 1 creates it
      again. As long as there are numbers for that, one number is given out twice. */
  lemma CarelessReuses(c: Config, l: Listing, cls: Class) returns (races: seq<Race>, moves: seq<Move>)
    requires cls != Pending && Ready(c, l) && NextNumber(l) + Keep(c, cls) <= MAX_BUILD
    ensures RaceRun(c, l, races, moves)
    ensures var given := races[|moves|].world.given;
            |given| >= 2 && given[0] == given[|given| - 1] == NextNumber(l)
  {
    var n, start := NextNumber(l), World(l, map[], []);
    var w;
    races, moves := AddListing(c, l, [Race(start, map[])], [], Race(start, map[]), 1);
    races, moves, w := AddBuilds(c, l, races, moves, Race(WithLoad(start, 1), map[1 := n]), n,
                                 n + Keep(c, cls) + 1, cls);
    assert w.given[0] == n;
    races, moves, w := AddCareless(c, l, races, moves, Race(w, map[1 := n]), n, cls);
    races, moves := AddCreate(c, l, races, moves, Race(w, map[1 := n]), 1, n);
  }

  // ---- exactly when numbers stay distinct ----------------------------------------------

  /** So many builds are kept that the numbers from n on do not suffice to make build n outdated. */
  lemma NeverOutdated(b: map<nat, string>, keep: nat, n: nat)
    requires NamedBySix(b) && n + keep > MAX_BUILD
    ensures !Outdated(b, keep, n)
  {
    if n in b {
      Smaller((set k | k in b && k > n), NumbersFrom(n + 1, MAX_BUILD - n));
    }
  }

  lemma CarefulAnyway(c: Config, r: Race, move: Move, low: nat)
    requires RaceInv(c, r, low) && low + c.keepSuccessful > MAX_BUILD && low + c.keepBroken > MAX_BUILD
    ensures Careful(c, r, move)
  {
    if move.Other? && move.step.Cleanup? && move.step.id in r.world.jobs {
      var m := r.world.jobs[move.step.id];
      forall id | id in r.listed ensures Spares(c, m, r.listed[id]) {
        NeverOutdated(m.successful, c.keepSuccessful, r.listed[id]);
        NeverOutdated(m.broken, c.keepBroken, r.listed[id]);
      }
    }
  }

  lemma {:induction false} WideRaces(c: Config, l: Listing, races: seq<Race>, moves: seq<Move>, i: nat)
    requires NextNumber(l) <= MAX_BUILD
    requires NextNumber(l) + c.keepSuccessful > MAX_BUILD && NextNumber(l) + c.keepBroken > MAX_BUILD
    requires RaceRun(c, l, races, moves) && i <= |moves|
    ensures RaceInv(c, races[i], NextNumber(l))
  {
    if i > 0 {
      WideRaces(c, l, races, moves, i - 1);
      assert GoesAt(c, races, moves, i - 1);
      CarefulAnyway(c, races[i - 1], moves[i - 1], NextNumber(l));
      MoveKeepsInv(c, races[i - 1], moves[i - 1], races[i], NextNumber(l));
    }
  }

  ghost predicate AllRacesDistinct(c: Config, l: Listing)
  {
    forall races: seq<Race>, moves: seq<Move> :: RaceRun(c, l, races, moves) ==> Distinct(races[|moves|].world.given)
  }

  /** Every interleaving gives out distinct numbers exactly when so many builds of both classes are kept
      that the six-digit numbers run out before any cleanup could remove a new build. */
  lemma RacesDistinctExactly(c: Config, l: Listing)
    requires Ready(c, l) && NextNumber(l) <= MAX_BUILD
    ensures AllRacesDistinct(c, l)
       <==> NextNumber(l) + c.keepSuccessful > MAX_BUILD && NextNumber(l) + c.keepBroken > MAX_BUILD
  {
    if NextNumber(l) + c.keepSuccessful > MAX_BUILD && NextNumber(l) + c.keepBroken > MAX_BUILD {
      forall races: seq<Race>, moves: seq<Move> | RaceRun(c, l, races, moves)
        ensures Distinct(races[|moves|].world.given)
      {
        WideRaces(c, l, races, moves, |moves|);
      }
    } else {
      var cls := if NextNumber(l) + c.keepSuccessful <= MAX_BUILD then Successful else Broken;
      var races, moves := CarelessReuses(c, l, cls);
      Repeats(races[|moves|].world.given);
    }
  }

  lemma Repeats(s: seq<nat>)
    requires |s| >= 2 && s[0] == s[|s| - 1]
    ensures !Distinct(s)
  {
  }

  /** A run in which prepare_build is one step is a careful one in which each listing is followed at once
      by its creation. */
  lemma {:induction false} RunIsRace(c: Config, l: Listing, worlds: seq<World>, steps: seq<Step>, i: nat)
    returns (races: seq<Race>, moves: seq<Move>)
    requires RunWithRoom(c, l, worlds, steps) && i <= |steps|
    ensures RaceTo(c, l, races, moves, Race(worlds[i], map[])) && CarefulThroughout(c, races, moves)
  {
    if i == 0 {
      return [Race(worlds[0], map[])], [];
    }
    races, moves := RunIsRace(c, l, worlds, steps, i - 1);
    assert Takes(c, worlds[i - 1], steps[i - 1], worlds[i]) && HasRoom(worlds[i - 1], steps[i - 1]);
    races, moves := StepIsRace(c, l, races, moves, worlds[i - 1], steps[i - 1], worlds[i]);
  }

  lemma StepIsRace(c: Config, l: Listing, races: seq<Race>, moves: seq<Move>, w: World, step: Step, w': World)
    returns (races': seq<Race>, moves': seq<Move>)
    requires RaceTo(c, l, races, moves, Race(w, map[])) && CarefulThroughout(c, races, moves)
    requires Takes(c, w, step, w') && HasRoom(w, step)
    ensures RaceTo(c, l, races', moves', Race(w', map[])) && CarefulThroughout(c, races', moves')
  {
    if step.Prepare? {
      var n, listed := NextNumber(w.disk), map[step.id := NextNumber(w.disk)];
      var create := Create(step.id, step.params, step.session, step.f, step.number);
      assert listed - {step.id} == map[];
      races', moves' := AddMove(c, l, races, moves, Race(w, map[]), List(step.id), Race(w, listed));
      races', moves' := AddMove(c, l, races', moves', Race(w, listed), create, Race(w', map[]));
    } else {
      races', moves' := AddMove(c, l, races, moves, Race(w, map[]), Other(step), Race(w', map[]));
    }
  }

  ghost predicate AllCarefulDistinct(c: Config, l: Listing)
  {
    forall races: seq<Race>, moves: seq<Move> ::
      RaceRun(c, l, races, moves) && CarefulThroughout(c, races, moves) ==> Distinct(races[|moves|].world.given)
  }

  /** All careful interleavings give out distinct numbers exactly when at least one build of each class is
      kept. */
  lemma CarefulRacesExactly(c: Config, l: Listing)
    requires Ready(c, l) && NextNumber(l) <= MAX_BUILD
    ensures AllCarefulDistinct(c, l) <==> c.keepSuccessful >= 1 && c.keepBroken >= 1
  {
    if c.keepSuccessful >= 1 && c.keepBroken >= 1 {
      forall races: seq<Race>, moves: seq<Move> | RaceRun(c, l, races, moves) && CarefulThroughout(c, races, moves)
        ensures Distinct(races[|moves|].world.given)
      {
        RacesStayDistinct(c, l, races, moves);
      }
    } else {
      var worlds, steps := ZeroKeepReuses(c, l, 0);
      var races, moves := RunIsRace(c, l, worlds, steps, |steps|);
      Repeats(races[|moves|].world.given);
    }
  }
}
