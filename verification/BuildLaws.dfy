/** What prepare, execute and cleanup keep: the three maps of a job stay a partition, cleanup leaves
    the newest builds, and exactly when the maps agree with what a fresh load_job would find. */
module BuildLaws {
  import opened Text
  import opened Errors
  import opened Numbers
  import opened ParamCodec
  import opened Builds
  import opened JobStore
  import ParamTransport
  import SessionStore

  // ---- the partition -------------------------------------------------------------------

  predicate Known(m: Maps, n: nat) { n in m.successful || n in m.broken || n in m.pending }

  predicate NamedBySix(b: map<nat, string>)
  {
    forall n :: n in b ==> n <= MAX_BUILD && b[n] == NumberString(n)
  }

  /** No number is in two maps, and each stands for the directory its six digits name. */
  ghost predicate Partition(m: Maps)
  {
    && m.successful.Keys !! m.broken.Keys && m.successful.Keys !! m.pending.Keys && m.broken.Keys !! m.pending.Keys
    && NamedBySix(m.successful) && NamedBySix(m.broken) && NamedBySix(m.pending)
  }

  lemma ReloadPartition(l: Listing)
    ensures Partition(Reload(l))
  {
  }

  /** execute on a pending build either changes no map or moves that one build and loses nothing. */
  lemma ExecuteMovesOne(m: Maps, l: Listing, n: nat, force: bool, env: ExecuteEnv, before: ExitCode)
    requires Partition(m) && n in m.pending
    ensures var m' := ExecuteMaps(m, l, n, force, env, before);
            && Partition(m')
            && (forall k :: Known(m', k) <==> Known(m, k))
            && (m' == m <==> !Starts(l, NumberString(n), force, env))
            && (m' != m ==> m'.pending == m.pending - {n})
            && (m' != m ==>
                  if FinalCode(env, before) == 0
                  then m'.successful == m.successful[n := NumberString(n)] && m'.broken == m.broken
                  else m'.broken == m.broken[n := NumberString(n)] && m'.successful == m.successful)
  {
  }

  /** On any other number the lookup alone already leaves an entry without a directory behind, so a
      refused execute changes the maps exactly when the number was not pending. */
  lemma RefusedExecute(m: Maps, l: Listing, n: nat, force: bool, env: ExecuteEnv, before: ExitCode)
    requires !Starts(l, Looked(m, n).pending[n], force, env)
    ensures ExecuteMaps(m, l, n, force, env, before) == m <==> n in m.pending
  {
  }

  /** prepare_build keeps the partition when its number is new to the maps. */
  lemma PreparePartition(m: Maps, l: Listing, m': Maps, l': Listing, number: Option<nat>,
                         script: string, params: seq<Pair>, session: string, f: PrepareFaults)
    requires Partition(m) && Prepared(m, l, m', l', number, script, params, session, f)
    requires number.Some? ==> NextNumber(l) <= MAX_BUILD && !Known(m, NextNumber(l))
    ensures Partition(m')
    ensures number.Some? ==> m'.pending == m.pending[number.value := NumberString(number.value)]
  {
  }

  /** The directory of a new build holds the parameters it was prepared with, and a reader gets them
      back exactly when names are non-empty and values do not end in trimmed blanks. */
  lemma ParamsInBuild(ws: LineEnds, m: Maps, l: Listing, m': Maps, l': Listing, number: Option<nat>,
                      script: string, params: seq<Pair>, session: string, f: PrepareFaults)
    requires Prepared(m, l, m', l', number, script, params, session, f) && number.Some?
    ensures var dir := NumberString(number.value);
            && dir in l' && l'[dir].Directory? && "job.params" in l'[dir].files
            && (ReadDecoded(ws, l'[dir].files["job.params"]) == Some(params)
                <==> forall p :: p in params ==> ParamTransport.Clean(ws, p))
  {
    ParamTransport.SurvivesExactly(ws, params);
  }

  /** The declared parameters of a loaded job are what its job.params file holds. */
  function DeclaredIn(ws: LineEnds, l: Listing, f: LoadFaults): Option<seq<Pair>>
  {
    if f.paramsClose || !HasFile(l, "job.params") then Some([]) else ReadDecoded(ws, l["job.params"].text)
  }

  lemma LoadedParams(ws: LineEnds, l: Listing, f: LoadFaults, config: Config)
    requires ReadConfig(ws, l, f) == (Some(config), Ok)
    ensures DeclaredIn(ws, l, f) == Some(config.params)
  {
  }

  lemma ReadNothing(ws: LineEnds)
    ensures ReadDecoded(ws, "") == Some([])
  {
    ReadLastLine(ws, "");
  }

  /** What get_param finds in the text that prepare_build writes. */
  lemma WrittenForChild(ws: LineEnds, home: Listing, lf: LoadFaults, config: Config, file: SessionStore.File,
                        sets: seq<Pair>, answers: seq<string>, params: seq<Pair>, name: string)
    requires ReadConfig(ws, home, lf) == (Some(config), Ok) && SessionStore.View(ws, file).Some?
    requires forall s :: s in sets ==> s.0 != ""
    requires ParamTransport.Chosen(config.params, false, None, answers, ws, SessionStore.SetAll(ws, file, sets),
                                   SessionStore.NO_FAULTS) == Some(params)
    ensures DeclaredIn(ws, home, lf).Some?
    ensures var values := SessionStore.View(ws, file).value + ToMap(TrimValues(ws, sets));
            var defaults := ToMap(DeclaredIn(ws, home, lf).value);
            SessionStore.GetFile(ws, Some(Render(EncodePairs(params))), name) ==
            Some(if name !in defaults then "" else if name in values then values[name] else defaults[name])
  {
    LoadedParams(ws, home, lf, config);
    var declared := if lf.paramsClose || !HasFile(home, "job.params") then "" else home["job.params"].text;
    ReadNothing(ws);
    ParamTransport.ParamsReachChild(ws, declared, file, sets, name);
  }

  /** The way of a parameter on the files themselves: the job is loaded; from any readable session parameter
      file, after any sequence of set_param calls, then startjob in that session and prepare_build, and
      again when the script has run, get_param on the build directory gives for each declared name the last
      value set, else the one the file had, else the default in the job.params of the job, and "" for any
      other name. */
  lemma ChildReadsParams(ws: LineEnds, home: Listing, lf: LoadFaults, config: Config,
                         file: SessionStore.File, sets: seq<Pair>, answers: seq<string>, params: seq<Pair>,
                         m: Maps, l: Listing, m': Maps, l': Listing, number: Option<nat>,
                         session: string, f: PrepareFaults, env: ExecuteEnv, lines: seq<string>, name: string)
    requires ReadConfig(ws, home, lf) == (Some(config), Ok) && SessionStore.View(ws, file).Some?
    requires forall s :: s in sets ==> s.0 != ""
    requires ParamTransport.Chosen(config.params, false, None, answers, ws, SessionStore.SetAll(ws, file, sets),
                                   SessionStore.NO_FAULTS) == Some(params)
    requires Prepared(m, l, m', l', number, config.script, params, session, f) && number.Some?
    ensures DeclaredIn(ws, home, lf).Some?
    ensures NumberString(number.value) in l' && l'[NumberString(number.value)].Directory?
    ensures var files := l'[NumberString(number.value)].files;
            var ran := RunFiles(files, env, lines);
            var values := SessionStore.View(ws, file).value + ToMap(TrimValues(ws, sets));
            var defaults := ToMap(DeclaredIn(ws, home, lf).value);
            var read := if name !in defaults then "" else if name in values then values[name] else defaults[name];
            && "job.params" in files && SessionStore.GetFile(ws, Some(files["job.params"]), name) == Some(read)
            && "job.params" in ran && SessionStore.GetFile(ws, Some(ran["job.params"]), name) == Some(read)
  {
    WrittenForChild(ws, home, lf, config, file, sets, answers, params, name);
    var files := l'[NumberString(number.value)].files;
    assert files["job.params"] == Render(EncodePairs(params));
    RunKeepsFile(files, env, lines, "job.params");
  }

  lemma RunKeepsFile(files: map<string, string>, env: ExecuteEnv, lines: seq<string>, name: string)
    requires name in files && name != "output.txt" && name != "exitcode.txt"
    ensures name in RunFiles(files, env, lines) && RunFiles(files, env, lines)[name] == files[name]
  {
  }

  // ---- cleanup -------------------------------------------------------------------------

  /** The names of the builds of m that are not in left. */
  function Gone(m: map<nat, string>, left: map<nat, string>): set<string>
  {
    set n | n in m && n !in left :: m[n]
  }

  lemma DropMore(m: map<nat, string>, left: map<nat, string>, n: nat)
    requires IsFirst(m, n) && DropsOldest(m - {n}, left)
    ensures DropsOldest(m, left) && Gone(m, left) == Gone(m - {n}, left) + {m[n]}
  {
    assert n !in left;
    forall a, b | a in m && a !in left && b in left
      ensures a < b
    {
      assert a != n ==> a in m - {n};
      assert b in m - {n} && b != n;
    }
  }

  /** The removal loop takes builds off the front. */
  lemma {:induction false} PruneLeaves(m: map<nat, string>, l: Listing, count: nat, stuck: Stuck)
    requires count <= |m|
    ensures DropsOldest(m, Prune(m, l, count, stuck).0)
    decreases count
  {
    if count > 0 {
      var n := First(m);
      DropFirst(m, m, n);
      if !StuckAt(l, m[n], stuck) {
        PruneLeaves(m - {n}, l - {m[n]}, count - 1, stuck);
        DropMore(m, Prune(m - {n}, l - {m[n]}, count - 1, stuck).0, n);
      }
    }
  }

  /** One round of a removal loop, at the oldest build n. */
  lemma PruneRound(b: map<nat, string>, n: nat, l: Listing, count: nat, stuck: Stuck)
    requires 0 < count <= |b| && n == First(b)
    ensures |b - {n}| == |b| - 1
    ensures StuckAt(l, b[n], stuck) ==> Prune(b, l, count, stuck) == (b, l[b[n] := Directory(stuck[b[n]])], false)
    ensures !StuckAt(l, b[n], stuck) ==> Prune(b, l, count, stuck) == Prune(b - {n}, l - {b[n]}, count - 1, stuck)
  {
    DropFirst(b, b, n);
  }

  lemma {:induction false} PruneSizes(m: map<nat, string>, size: nat, l: Listing, count: nat, stuck: Stuck,
                                      r: (map<nat, string>, Listing, bool))
    requires count <= size == |m| && r == Prune(m, l, count, stuck)
    ensures if r.2 then |r.0| == size - count else |r.0| > size - count
    decreases count
  {
    if count > 0 {
      var n := First(m);
      DropFirst(m, m, n);
      if !StuckAt(l, m[n], stuck) {
        PruneSizes(m - {n}, size - 1, l - {m[n]}, count - 1, stuck, r);
      }
    }
  }

  /** It takes all it was asked for, or, when a removal fails, fewer. */
  lemma PruneCounts(m: map<nat, string>, l: Listing, count: nat, stuck: Stuck)
    requires count <= |m|
    ensures var r := Prune(m, l, count, stuck);
            if r.2 then |r.0| == |m| - count else |r.0| > |m| - count
  {
    PruneSizes(m, |m|, l, count, stuck, Prune(m, l, count, stuck));
  }

  lemma MinusTwice(l: Listing, dir: string, gone: set<string>)
    ensures l - (gone + {dir}) == l - {dir} - gone
  {
  }

  /** When all removals succeed, exactly the directories of the dropped builds are gone. */
  lemma {:induction false} PruneRemoves(m: map<nat, string>, l: Listing, count: nat, stuck: Stuck)
    requires count <= |m| && Prune(m, l, count, stuck).2
    ensures Prune(m, l, count, stuck).1 == l - Gone(m, Prune(m, l, count, stuck).0)
    decreases count
  {
    if count == 0 {
      NothingGone(m, l);
    } else {
      var n := First(m);
      DropFirst(m, m, n);
      PruneRemoves(m - {n}, l - {m[n]}, count - 1, stuck);
      PruneGone(m, n, l, l - {m[n]}, count - 1, stuck);
    }
  }

  lemma PruneGone(m: map<nat, string>, n: nat, l: Listing, l1: Listing, count: nat, stuck: Stuck)
    requires IsFirst(m, n) && count <= |m - {n}|
    ensures var left := Prune(m - {n}, l1, count, stuck).0;
            l - Gone(m, left) == l - {m[n]} - Gone(m - {n}, left)
  {
    PruneLeaves(m - {n}, l1, count, stuck);
    GoneStep(m, Prune(m - {n}, l1, count, stuck).0, n, l);
  }

  lemma GoneStep(m: map<nat, string>, left: map<nat, string>, n: nat, l: Listing)
    requires IsFirst(m, n) && DropsOldest(m - {n}, left)
    ensures l - Gone(m, left) == l - {m[n]} - Gone(m - {n}, left)
  {
    DropMore(m, left, n);
    MinusTwice(l, m[n], Gone(m - {n}, left));
  }

  /** When a removal fails it is at the oldest build left, which is still listed: the builds before it
      are gone, and its own directory remains with whatever files the failed removal left. */
  lemma {:induction false} PruneFails(m: map<nat, string>, l: Listing, count: nat, stuck: Stuck)
    requires count <= |m| && !Prune(m, l, count, stuck).2
    ensures var r := Prune(m, l, count, stuck);
            r.0 != map[] && FailedAt(l - Gone(m, r.0), r.1, r.0[First(r.0)], stuck)
    decreases count
  {
    var n := First(m);
    if StuckAt(l, m[n], stuck) {
      NothingGone(m, l);
    } else {
      DropFirst(m, m, n);
      PruneFails(m - {n}, l - {m[n]}, count - 1, stuck);
      PruneGone(m, n, l, l - {m[n]}, count - 1, stuck);
    }
  }

  lemma NothingGone(m: map<nat, string>, l: Listing)
    ensures l - Gone(m, m) == l
  {
    assert Gone(m, m) == {};
  }

  ghost predicate FailedAt(l: Listing, l': Listing, dir: string, stuck: Stuck)
  {
    dir in stuck && dir in l && l[dir].Directory? && l' == l[dir := Directory(stuck[dir])]
  }

  /** A cleanup that succeeds keeps exactly the newest builds of both finished classes and all pending
      ones; one that fails has dropped the oldest successful builds, or as many as it should have and
      the oldest broken ones. */
  lemma CleanupKeepsNewest(m: Maps, l: Listing, c: Config, stuck: Stuck)
    ensures var r := Cleaned(m, l, c, stuck);
            && r.0.pending == m.pending
            && (r.2 ==> KeepsNewest(m.successful, r.0.successful, c.keepSuccessful))
            && (r.2 ==> KeepsNewest(m.broken, r.0.broken, c.keepBroken))
            && (!r.2 ==> DropsOldest(m.successful, r.0.successful) && DropsOldest(m.broken, r.0.broken))
            && (!r.2 ==> r.0.broken == m.broken || KeepsNewest(m.successful, r.0.successful, c.keepSuccessful))
  {
    PruneLeaves(m.successful, l, Excess(m.successful, c.keepSuccessful), stuck);
    PruneCounts(m.successful, l, Excess(m.successful, c.keepSuccessful), stuck);
    var s := CleanupSuccessful(m, l, c, stuck);
    PruneLeaves(m.broken, s.1, Excess(m.broken, c.keepBroken), stuck);
    PruneCounts(m.broken, s.1, Excess(m.broken, c.keepBroken), stuck);
  }

  /** A cleanup without a failed removal takes exactly the directories of the builds it drops out of the
      job directory; whatever happens, no other entry appears or goes. */
  lemma CleanupDirectory(m: Maps, l: Listing, c: Config, stuck: Stuck)
    ensures var r := Cleaned(m, l, c, stuck);
            && (r.2 ==> r.1 == l - Gone(m.successful, r.0.successful) - Gone(m.broken, r.0.broken))
            && r.1.Keys == l.Keys - Gone(m.successful, r.0.successful) - Gone(m.broken, r.0.broken)
  {
    var s := CleanupSuccessful(m, l, c, stuck);
    PruneDirectory(m.successful, l, Excess(m.successful, c.keepSuccessful), stuck);
    PruneDirectory(m.broken, s.1, Excess(m.broken, c.keepBroken), stuck);
    NothingGone(m.broken, l);
  }

  lemma PruneDirectory(b: map<nat, string>, l: Listing, count: nat, stuck: Stuck)
    requires count <= |b|
    ensures var r := Prune(b, l, count, stuck);
            && (r.2 ==> r.1 == l - Gone(b, r.0))
            && r.1.Keys == l.Keys - Gone(b, r.0)
  {
    if Prune(b, l, count, stuck).2 { PruneRemoves(b, l, count, stuck); } else { PruneFails(b, l, count, stuck); }
  }

  // ---- memory and disk -----------------------------------------------------------------

  /** A fresh load_job would find what the job object holds. */
  ghost predicate Agrees(m: Maps, l: Listing) { m == Reload(l) }

  /** The map of class c after the entry of number n became node. */
  function Reclassified(b: map<nat, string>, n: nat, inClass: bool): map<nat, string>
  {
    if inClass then b[n := NumberString(n)] else b - {n}
  }

  lemma NumberStringInjective(n: nat, k: nat)
    ensures NumberString(n) == NumberString(k) <==> n == k
  {
    NumberStringRoundTrip(n);
    NumberStringRoundTrip(k);
  }

  predicate InClass(l: Listing, n: nat, c: Class)
  {
    n <= MAX_BUILD && NumberString(n) in l && ClassOf(l[NumberString(n)]) == c
  }

  lemma BuildsAre(l: Listing, c: Class)
    ensures NamedBySix(BuildsOf(l, c)) && forall n: nat :: n in BuildsOf(l, c) <==> InClass(l, n, c)
  {
  }

  lemma SameBuilds(a: map<nat, string>, b: map<nat, string>)
    requires NamedBySix(a) && NamedBySix(b) && forall n: nat :: n in a <==> n in b
    ensures a == b
  {
  }

  lemma InClassPut(l: Listing, n: nat, node: Node, c: Class, k: nat)
    requires n <= MAX_BUILD
    ensures InClass(l[NumberString(n) := node], k, c) <==> if k == n then ClassOf(node) == c else InClass(l, k, c)
  {
    NumberStringInjective(n, k);
  }

  lemma ReloadPut(l: Listing, n: nat, node: Node, c: Class)
    requires n <= MAX_BUILD
    ensures BuildsOf(l[NumberString(n) := node], c) == Reclassified(BuildsOf(l, c), n, ClassOf(node) == c)
  {
    var b, b' := BuildsOf(l, c), BuildsOf(l[NumberString(n) := node], c);
    BuildsAre(l, c);
    BuildsAre(l[NumberString(n) := node], c);
    forall k: nat ensures k in b' <==> k in Reclassified(b, n, ClassOf(node) == c) {
      InClassPut(l, n, node, c, k);
    }
    SameBuilds(b', Reclassified(b, n, ClassOf(node) == c));
  }

  /** The maps after build n was put into class c alone. */
  function Updated(m: Maps, n: nat, c: Class): Maps
  {
    Maps(Reclassified(m.successful, n, c == Successful), Reclassified(m.broken, n, c == Broken),
         Reclassified(m.pending, n, c == Pending))
  }

  lemma ReloadAfterPut(l: Listing, n: nat, node: Node)
    requires n <= MAX_BUILD
    ensures Reload(l[NumberString(n) := node]) == Updated(Reload(l), n, ClassOf(node))
  {
    ReloadPut(l, n, node, Successful);
    ReloadPut(l, n, node, Broken);
    ReloadPut(l, n, node, Pending);
  }

  /** A new build shows in the maps, and as pending it is all that shows. */
  lemma NewBuild(m: Maps, n: nat, c: Class)
    requires !Known(m, n)
    ensures Updated(m, n, c) != m
    ensures Updated(m, n, c) == m.(pending := m.pending[n := NumberString(n)]) <==> c == Pending
  {
    assert m.successful - {n} == m.successful && m.broken - {n} == m.broken;
    assert Known(Updated(m, n, c), n);
  }

  /** Moving a pending build is the update by its class and by no other. */
  lemma MovedBuild(m: Maps, n: nat, ok: bool, c: Class)
    requires Partition(m) && n in m.pending
    ensures Move(m, n, ok) == Updated(m, n, c) <==> c == if ok then Successful else Broken
  {
    assert m.successful - {n} == m.successful && m.broken - {n} == m.broken;
    assert n !in m.successful && n !in m.broken && n !in m.pending - {n};
  }

  lemma UnknownNumber(l: Listing, n: nat)
    requires NumberString(n) !in l
    ensures !Known(Reload(l), n)
  {
    BuildsAre(l, Successful);
    BuildsAre(l, Broken);
    BuildsAre(l, Pending);
  }

  /** The next number is not in use. */
  lemma NextIsNew(l: Listing)
    ensures NextNumber(l) <= MAX_BUILD + 1
    ensures NextNumber(l) <= MAX_BUILD && !HasFile(l, NumberString(NextNumber(l))) ==> NumberString(NextNumber(l)) !in l
  {
    var n := NextNumber(l);
    NumberStringRoundTrip(n);
    assert n !in BuildDirs(l);
    assert n > 0 ==> n - 1 in BuildDirs(l);
  }

  /** The copy of the script is no exit code file, or one without a number in it. */
  predicate ScriptIsNoCode(l: Listing, script: string)
  {
    HasFile(l, script) && script == "exitcode.txt" ==> U32FromString(FirstLine(l[script].text)) == None
  }

  /** What a caller of prepare_build can look at for what follows: below 1000000 either the build can be
      prepared or not even its directory can be made; from there on it must not be prepared. */
  predicate PrepareRecords(l: Listing, n: nat, script: string, f: PrepareFaults)
  {
    var dir := NumberString(n);
    if n <= MAX_BUILD
    then (CanPrepare(l, script, dir, f) && ScriptIsNoCode(l, script)) || f.createDir || HasFile(l, dir)
    else !CanPrepare(l, script, dir, f)
  }

  /** After prepare_build a reload gives the maps in memory exactly under that condition: an unfinished
      build directory counts as pending on disk only, a seven-digit one in memory only. */
  lemma PrepareAgreesExactly(m: Maps, l: Listing, m': Maps, l': Listing, number: Option<nat>,
                             script: string, params: seq<Pair>, session: string, f: PrepareFaults)
    requires Agrees(m, l) && Prepared(m, l, m', l', number, script, params, session, f)
    ensures Agrees(m', l') <==> PrepareRecords(l, NextNumber(l), script, f)
  {
    var n := NextNumber(l);
    var dir := NumberString(n);
    NextIsNew(l);
    if n > MAX_BUILD {
      PrepareBeyond(m, l, m', l', number, script, params, session, f);
    } else if number.Some? {
      var files := Filled(FilesIn(l, dir), l, script, params, session);
      FilledClass(l, script, params, session);
      PutAgrees(m, l, n, Directory(files));
    } else if !f.createDir && !HasFile(l, dir) {
      var files := FilesLeft(FilesIn(l, dir), l, script, params, PrepareError(l, script, dir, f));
      PutAgrees(m, l, n, Directory(files));
    }
  }

  /** A fresh build directory counts as pending exactly when the script is no exit code. */
  lemma FilledClass(l: Listing, script: string, params: seq<Pair>, session: string)
    requires HasFile(l, script) && HasFile(l, "job.conf")
    ensures ClassOf(Directory(Filled(map[], l, script, params, session))) == Pending <==> ScriptIsNoCode(l, script)
  {
    NoNumber();
  }

  /** A directory without a build name does not show in a reload. */
  lemma PrepareBeyond(m: Maps, l: Listing, m': Maps, l': Listing, number: Option<nat>,
                      script: string, params: seq<Pair>, session: string, f: PrepareFaults)
    requires Agrees(m, l) && Prepared(m, l, m', l', number, script, params, session, f) && NextNumber(l) > MAX_BUILD
    ensures Agrees(m', l') <==> number == None
  {
    var n := NextNumber(l);
    ReloadElsewhere(l, l', n);
    BuildsAre(l, Pending);
    assert n !in m.pending;
  }

  lemma ReloadElsewhere(l: Listing, l': Listing, n: nat)
    requires n > MAX_BUILD
    requires forall name :: name != NumberString(n) ==>
               (name in l' <==> name in l) && (name in l ==> l'[name] == l[name])
    ensures Reload(l') == Reload(l)
  {
    forall k: nat, c | k <= MAX_BUILD ensures InClass(l', k, c) <==> InClass(l, k, c) {
      NumberStringInjective(n, k);
    }
    SameClasses(l, l', Successful);
    SameClasses(l, l', Broken);
    SameClasses(l, l', Pending);
  }

  lemma SameClasses(l: Listing, l': Listing, c: Class)
    requires forall k: nat :: k <= MAX_BUILD ==> (InClass(l', k, c) <==> InClass(l, k, c))
    ensures BuildsOf(l', c) == BuildsOf(l, c)
  {
    BuildsAre(l, c);
    BuildsAre(l', c);
    SameBuilds(BuildsOf(l, c), BuildsOf(l', c));
  }

  /** A new entry with a build name always shows in a reload, and as pending exactly if that is its class. */
  lemma PutAgrees(m: Maps, l: Listing, n: nat, node: Node)
    requires Agrees(m, l) && n <= MAX_BUILD && NumberString(n) !in l
    ensures !Agrees(m, l[NumberString(n) := node]) && n !in m.pending
    ensures ClassOf(node) == Pending <==>
              Agrees(m.(pending := m.pending[n := NumberString(n)]), l[NumberString(n) := node])
  {
    UnknownNumber(l, n);
    ReloadAfterPut(l, n, node);
    NewBuild(m, n, ClassOf(node));
  }

  /** The class of a build directory after its script ran follows the exit code if that was reported
      and written, and is pending still otherwise. */
  lemma RunClass(files: map<string, string>, env: ExecuteEnv, lines: seq<string>)
    requires env.report == None || !env.exitFileOpens ==> ClassOf(Directory(files)) == Pending
    ensures ClassOf(Directory(RunFiles(files, env, lines))) ==
            if env.report == None || !env.exitFileOpens then Pending
            else if env.report.value == 0 then Successful else Broken
  {
    if env.report.Some? { ExitFileRoundTrip(env.report.value); }
  }

  /** After execute on a pending build the maps agree with the directory exactly when the build never
      started, or its exit code was reported and exitcode.txt written. */
  lemma ExecuteAgreesExactly(m: Maps, l: Listing, n: nat, force: bool, env: ExecuteEnv,
                             lines: seq<string>, before: ExitCode)
    requires Agrees(m, l) && n in m.pending
    ensures Agrees(ExecuteMaps(m, l, n, force, env, before), ExecuteListing(m, l, n, force, env, lines))
       <==> !Starts(l, NumberString(n), force, env) || (env.report.Some? && env.exitFileOpens)
  {
    var dir := NumberString(n);
    BuildsAre(l, Pending);
    assert InClass(l, n, Pending) && Looked(m, n) == m && m.pending[n] == dir;
    if Starts(l, dir, force, env) {
      var node := Directory(RunFiles(l[dir].files, env, lines));
      RunClass(l[dir].files, env, lines);
      ReloadAfterPut(l, n, node);
      ReloadPartition(l);
      MovedBuild(m, n, FinalCode(env, before) == 0, ClassOf(node));
    }
  }

  lemma ReloadRemove(l: Listing, gone: map<nat, string>, c: Class)
    requires NamedBySix(gone)
    ensures BuildsOf(l - gone.Values, c) == BuildsOf(l, c) - gone.Keys
  {
    BuildsAre(l, c);
    BuildsAre(l - gone.Values, c);
    forall n: nat
      ensures n in BuildsOf(l - gone.Values, c) <==> n in BuildsOf(l, c) - gone.Keys
    {
      GoneByName(gone, n);
    }
    SameBuilds(BuildsOf(l - gone.Values, c), BuildsOf(l, c) - gone.Keys);
  }

  lemma GoneByName(gone: map<nat, string>, n: nat)
    requires NamedBySix(gone)
    ensures NumberString(n) in gone.Values <==> n in gone
  {
    if NumberString(n) in gone.Values {
      var k :| k in gone && gone[k] == NumberString(n);
      NumberStringInjective(n, k);
    }
    if n in gone { assert gone[n] in gone.Values; }
  }

  function Without(m: Maps, gone: set<nat>): Maps
  {
    Maps(m.successful - gone, m.broken - gone, m.pending - gone)
  }

  lemma ReloadWithout(l: Listing, gone: map<nat, string>)
    requires NamedBySix(gone)
    ensures Reload(l - gone.Values) == Without(Reload(l), gone.Keys)
  {
    ReloadRemove(l, gone, Successful);
    ReloadRemove(l, gone, Broken);
    ReloadRemove(l, gone, Pending);
  }

  lemma MinusDisjoint(b: map<nat, string>, gone: set<nat>)
    requires b.Keys !! gone
    ensures b - gone == b
  {
  }

  lemma MinusDropped(b: map<nat, string>, left: map<nat, string>)
    requires DropsOldest(b, left)
    ensures b - (b.Keys - left.Keys) == left
  {
  }

  /** Builds taken out of one finished map are in no other. */
  lemma WithoutSuccessful(m: Maps, left: map<nat, string>)
    requires Partition(m) && DropsOldest(m.successful, left)
    ensures Without(m, m.successful.Keys - left.Keys) == m.(successful := left)
  {
    MinusDropped(m.successful, left);
    MinusDisjoint(m.broken, m.successful.Keys - left.Keys);
    MinusDisjoint(m.pending, m.successful.Keys - left.Keys);
  }

  lemma WithoutBroken(m: Maps, left: map<nat, string>)
    requires Partition(m) && DropsOldest(m.broken, left)
    ensures Without(m, m.broken.Keys - left.Keys) == m.(broken := left)
  {
    MinusDropped(m.broken, left);
    MinusDisjoint(m.successful, m.broken.Keys - left.Keys);
    MinusDisjoint(m.pending, m.broken.Keys - left.Keys);
  }

  lemma GoneValues(b: map<nat, string>, left: map<nat, string>)
    ensures (b - left.Keys).Values == Gone(b, left) && (b - left.Keys).Keys == b.Keys - left.Keys
  {
    var gone := b - left.Keys;
    forall p ensures p in gone.Values <==> p in Gone(b, left) {
      if p in Gone(b, left) {
        var n :| n in b && n !in left && b[n] == p;
        assert n in gone && gone[n] == p;
      }
    }
  }

  /** Dropping the oldest builds of one finished map and their directories keeps the agreement. */
  lemma DropAgrees(m: Maps, l: Listing, b: map<nat, string>, left: map<nat, string>, c: Class)
    requires Agrees(m, l) && Partition(m) && DropsOldest(b, left) && c != Pending && b == OfClass(m, c)
    ensures Agrees(WithClass(m, c, left), l - Gone(b, left))
  {
    GoneValues(b, left);
    ReloadWithout(l, b - left.Keys);
    if c == Successful { WithoutSuccessful(m, left); } else { WithoutBroken(m, left); }
  }

  /** Build n of b is one that cleanup removes: keep builds or more are newer. */
  predicate Outdated(b: map<nat, string>, keep: nat, n: nat)
  {
    n in b && |set k | k in b && k > n| >= keep
  }

  /** Of the outdated builds, n is the oldest whose directory cannot be removed. */
  predicate FirstStuck(b: map<nat, string>, keep: nat, stuck: Stuck, n: nat)
  {
    Outdated(b, keep, n) && b[n] in stuck && forall k :: k in b && k < n ==> b[k] !in stuck
  }

  predicate NoneStuck(b: map<nat, string>, keep: nat, stuck: Stuck)
  {
    forall n :: n in b ==> !FirstStuck(b, keep, stuck, n)
  }

  lemma OutdatedRest(b: map<nat, string>, keep: nat, n: nat, k: nat)
    requires IsFirst(b, n)
    ensures Outdated(b, keep, n) <==> |b| > keep
    ensures k != n ==> (Outdated(b - {n}, keep, k) <==> Outdated(b, keep, k))
  {
    assert (set o | o in b && o > n) == b.Keys - {n};
    if k in b && k != n {
      assert (set o | o in b - {n} && o > k) == (set o | o in b && o > k);
    }
  }

  lemma NothingOutdated(b: map<nat, string>, keep: nat, k: nat)
    requires |b| <= keep
    ensures !Outdated(b, keep, k)
  {
    if k in b { Smaller((set o | o in b && o > k), b.Keys - {k}); }
  }

  lemma Smaller(a: set<nat>, b: set<nat>)
    requires a <= b
    ensures |a| <= |b|
  {
    assert b == a + (b - a);
  }

  lemma FirstStuckRest(b: map<nat, string>, keep: nat, stuck: Stuck, n: nat, k: nat)
    requires IsFirst(b, n) && b[n] !in stuck
    ensures FirstStuck(b, keep, stuck, k) <==> k != n && FirstStuck(b - {n}, keep, stuck, k)
  {
    OutdatedRest(b, keep, n, k);
    if k in b && k != n { assert forall o :: o in b && o != n ==> o in b - {n}; }
  }

  lemma NoneStuckRest(b: map<nat, string>, keep: nat, stuck: Stuck, n: nat)
    requires IsFirst(b, n) && b[n] !in stuck
    ensures NoneStuck(b, keep, stuck) <==> NoneStuck(b - {n}, keep, stuck)
  {
    forall k: nat ensures FirstStuck(b, keep, stuck, k) <==> k != n && FirstStuck(b - {n}, keep, stuck, k) {
      FirstStuckRest(b, keep, stuck, n, k);
    }
  }

  /** A cleanup from the maps m has no reason to touch build n. */
  predicate Spares(c: Config, m: Maps, n: nat)
  {
    !Outdated(m.successful, c.keepSuccessful, n) && !Outdated(m.broken, c.keepBroken, n)
  }

  predicate Named(b: map<nat, string>) { forall n :: n in b ==> b[n] == NumberString(n) }

  predicate Holds(l: Listing, name: string, node: Node) { name in l && l[name] == node }

  /** No other build of b than n has that path. */
  predicate OthersElsewhere(b: map<nat, string>, n: nat, path: string) { forall k :: k in b && b[k] == path ==> k == n }

  lemma NamedElsewhere(b: map<nat, string>, n: nat)
    requires Named(b)
    ensures OthersElsewhere(b, n, NumberString(n))
  {
    forall k | k in b && b[k] == NumberString(n) ensures k == n { NumberStringInjective(k, n); }
  }

  /** A removal loop leaves alone what is not outdated, whether it fails or not. */
  lemma {:induction false} PruneSpares(b: map<nat, string>, l: Listing, keep: nat, count: nat, stuck: Stuck, n: nat,
                                       path: string, node: Node, r: (map<nat, string>, Listing, bool))
    requires count == Excess(b, keep) && r == Prune(b, l, count, stuck)
    requires !Outdated(b, keep, n) && OthersElsewhere(b, n, path) && Holds(l, path, node)
    ensures Holds(r.1, path, node)
    decreases count
  {
    if count > 0 {
      var f := First(b);
      DropFirst(b, b, f);
      OutdatedRest(b, keep, f, f);
      assert b[f] != path;
      if !StuckAt(l, b[f], stuck) {
        OutdatedRest(b, keep, f, n);
        PruneSpares(b - {f}, l - {b[f]}, keep, count - 1, stuck, n, path, node, r);
      }
    }
  }

  /** A cleanup, failing or not, leaves alone every build that is not outdated in either finished map. */
  lemma CleanupSpares(m: Maps, l: Listing, c: Config, stuck: Stuck, n: nat, node: Node)
    requires Named(m.successful) && Named(m.broken) && Spares(c, m, n) && Holds(l, NumberString(n), node)
    ensures Holds(Cleaned(m, l, c, stuck).1, NumberString(n), node)
  {
    var s := CleanupSuccessful(m, l, c, stuck);
    var path := NumberString(n);
    NamedElsewhere(m.successful, n);
    NamedElsewhere(m.broken, n);
    PruneSpares(m.successful, l, c.keepSuccessful, Excess(m.successful, c.keepSuccessful), stuck, n, path, node, s);
    if s.2 {
      PruneSpares(m.broken, s.1, c.keepBroken, Excess(m.broken, c.keepBroken), stuck, n, path, node,
                  CleanupBroken(m, s.1, c, stuck));
    }
  }

  /** The directories of b are all there. */
  predicate Present(b: map<nat, string>, l: Listing)
  {
    NamedBySix(b) && forall n :: n in b ==> b[n] in l && l[b[n]].Directory?
  }

  lemma PresentRest(b: map<nat, string>, l: Listing, n: nat)
    requires Present(b, l) && n in b
    ensures Present(b - {n}, l - {b[n]})
  {
    forall k | k in b - {n} ensures b[k] in l - {b[n]} {
      NumberStringInjective(n, k);
    }
  }

  /** A removal loop that left the builds left reports a failure exactly when an outdated one of b is
      stuck, and the first such is then the oldest one left. */
  ghost predicate StopsRight(b: map<nat, string>, keep: nat, stuck: Stuck, left: map<nat, string>, ok: bool)
  {
    && (ok <==> NoneStuck(b, keep, stuck))
    && (!ok ==> left != map[] && FirstStuck(b, keep, stuck, First(left)))
  }

  lemma StopsRest(b: map<nat, string>, keep: nat, stuck: Stuck, n: nat, left: map<nat, string>, ok: bool)
    requires IsFirst(b, n) && b[n] !in stuck && StopsRight(b - {n}, keep, stuck, left, ok)
    ensures StopsRight(b, keep, stuck, left, ok)
  {
    NoneStuckRest(b, keep, stuck, n);
    if !ok { FirstStuckRest(b, keep, stuck, n, First(left)); }
  }

  lemma StopsHere(b: map<nat, string>, keep: nat, stuck: Stuck)
    requires |b| > keep && b[First(b)] in stuck
    ensures StopsRight(b, keep, stuck, b, false)
  {
    OutdatedRest(b, keep, First(b), First(b));
    assert FirstStuck(b, keep, stuck, First(b));
  }

  lemma StopsNowhere(b: map<nat, string>, keep: nat, stuck: Stuck)
    requires |b| <= keep
    ensures StopsRight(b, keep, stuck, b, true)
  {
    forall k | k in b ensures !Outdated(b, keep, k) { NothingOutdated(b, keep, k); }
  }

  /** A removal loop over builds that are all there stops right. */
  lemma {:induction false} PruneStops(b: map<nat, string>, l: Listing, keep: nat, count: nat, stuck: Stuck,
                                      r: (map<nat, string>, Listing, bool))
    requires Present(b, l) && count == Excess(b, keep) && r == Prune(b, l, count, stuck)
    ensures StopsRight(b, keep, stuck, r.0, r.2)
    decreases count
  {
    if count == 0 {
      StopsNowhere(b, keep, stuck);
    } else {
      var n := First(b);
      PruneRound(b, n, l, count, stuck);
      if b[n] in stuck {
        StopsHere(b, keep, stuck);
      } else {
        PresentRest(b, l, n);
        PruneStops(b - {n}, l - {b[n]}, keep, count - 1, stuck, r);
        StopsRest(b, keep, stuck, n, r.0, r.2);
      }
    }
  }

  /** What the failed removal left of the first stuck build still counts as class c. */
  predicate StuckCounts(b: map<nat, string>, keep: nat, stuck: Stuck, c: Class)
  {
    forall n :: n in b && FirstStuck(b, keep, stuck, n) ==> ClassOf(Directory(stuck[b[n]])) == c
  }

  /** What a caller of cleanup would have to know for what follows. */
  predicate CleanupRecords(m: Maps, c: Config, stuck: Stuck)
  {
    && StuckCounts(m.successful, c.keepSuccessful, stuck, Successful)
    && (NoneStuck(m.successful, c.keepSuccessful, stuck) ==> StuckCounts(m.broken, c.keepBroken, stuck, Broken))
  }

  /** After a cleanup a reload gives the maps in memory exactly when the removal it fails at, if any, left
      the exit code of that build readable and in its class. */
  lemma CleanupAgreesExactly(m: Maps, l: Listing, c: Config, stuck: Stuck)
    requires Agrees(m, l)
    ensures Agrees(Cleaned(m, l, c, stuck).0, Cleaned(m, l, c, stuck).1) <==> CleanupRecords(m, c, stuck)
  {
    var s := CleanupSuccessful(m, l, c, stuck);
    PruneAgreesExactly(m.successful, l, c.keepSuccessful, stuck, m, Successful);
    if s.2 {
      var m1 := m.(successful := s.0);
      PruneAgreesExactly(m1.broken, s.1, c.keepBroken, stuck, m1, Broken);
    }
  }

  /** The map of one class. */
  function OfClass(m: Maps, c: Class): map<nat, string>
  {
    match c case Successful => m.successful case Broken => m.broken case Pending => m.pending
  }

  /** The maps with that of one finished class replaced. */
  function WithClass(m: Maps, c: Class, b: map<nat, string>): Maps
    requires c != Pending
  {
    if c == Successful then m.(successful := b) else m.(broken := b)
  }

  lemma PruneAgreesExactly(b: map<nat, string>, l: Listing, keep: nat, stuck: Stuck, m: Maps, c: Class)
    requires Agrees(m, l) && c != Pending && b == OfClass(m, c)
    ensures var r := Prune(b, l, Excess(b, keep), stuck);
            && (r.2 <==> NoneStuck(b, keep, stuck))
            && (Agrees(WithClass(m, c, r.0), r.1) <==> StuckCounts(b, keep, stuck, c))
  {
    var r := Prune(b, l, Excess(b, keep), stuck);
    FinishedPresent(l, c);
    PruneStops(b, l, keep, Excess(b, keep), stuck, r);
    PruneLeaves(b, l, Excess(b, keep), stuck);
    ReloadPartition(l);
    DropAgrees(m, l, b, r.0, c);
    if r.2 {
      PruneRemoves(b, l, Excess(b, keep), stuck);
    } else {
      PruneFails(b, l, Excess(b, keep), stuck);
      var n := First(r.0);
      FailedAgrees(WithClass(m, c, r.0), l - Gone(b, r.0), r.1, n, stuck, c);
      assert forall k :: FirstStuck(b, keep, stuck, k) ==> k == n;
    }
  }

  /** Whatever a failed removal leaves, only the class of that build can be wrong. */
  lemma FailedAgrees(m: Maps, l: Listing, l': Listing, n: nat, stuck: Stuck, c: Class)
    requires Agrees(m, l) && c != Pending && n in OfClass(m, c) && FailedAt(l, l', OfClass(m, c)[n], stuck)
    ensures Agrees(m, l') <==> ClassOf(Directory(stuck[OfClass(m, c)[n]])) == c
  {
    ReloadPartition(l);
    var node := Directory(stuck[NumberString(n)]);
    ReloadAfterPut(l, n, node);
    KeptClass(m, n, c, ClassOf(node));
  }

  lemma KeptClass(m: Maps, n: nat, c: Class, c': Class)
    requires Partition(m) && n in OfClass(m, c)
    ensures Updated(m, n, c') == m <==> c' == c
  {
    assert n !in m.successful ==> m.successful - {n} == m.successful;
    assert n !in m.broken ==> m.broken - {n} == m.broken;
    assert n !in m.pending ==> m.pending - {n} == m.pending;
    if c' != c { assert n !in OfClass(Updated(m, n, c'), c); }
  }

  /** A finished build is a directory with an exit code file. */
  lemma FinishedPresent(l: Listing, c: Class)
    requires c != Pending
    ensures Present(BuildsOf(l, c), l)
  {
    NoNumber();
    BuildsAre(l, c);
  }
}
