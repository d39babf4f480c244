/** job: preparing, executing and cleaning up the builds in a job directory, and load_job. */
module JobStore {
  import opened Text
  import opened Errors
  import opened Numbers
  import opened ParamCodec
  import opened Builds
  import JobRunner
  import ParamTransport

  /** The directory of the job, shared by every process that works on it. */
  class Disk {
    var entries: Listing

    constructor (entries: Listing)
      ensures this.entries == entries
    {
      this.entries := entries;
    }
  }

  datatype Config = Config(script: string, keepSuccessful: nat, keepBroken: nat, params: seq<Pair>)

  /** What fails in one call of prepare_build beyond what the directory itself makes fail. */
  datatype PrepareFaults = PrepareFaults(createDir: bool, copyScript: bool, openParams: bool, copyConf: bool,
                                         openSession: bool)

  /** The int of an exit code. */
  type ExitCode = x: int | -0x8000_0000 <= x < 0x8000_0000

  /** What one call of execute meets: the permission check and change, the two output files, what the
      script prints, and what the runner reports -- an exit code, or None for an error. */
  datatype ExecuteEnv = ExecuteEnv(statFails: bool, executable: bool, chmodFails: bool, outputOpens: bool,
                                   out: JobRunner.Pipe, err: JobRunner.Pipe, report: Option<ExitCode>,
                                   exitFileOpens: bool)

  // ---- what the operations do to the directory and the maps ----------------------------

  predicate HasFile(l: Listing, name: string) { name in l && l[name].PlainFile? }

  /** Nothing stands in the way of a build in directory dir: neither a fault, nor a missing script or
      job.conf, nor something already at one of the places to be written. */
  predicate CanPrepare(l: Listing, script: string, dir: string, f: PrepareFaults)
  {
    && f == PrepareFaults(false, false, false, false, false)
    && !HasFile(l, dir) && HasFile(l, script) && HasFile(l, "job.conf")
    && (dir in l ==> script !in l[dir].files && "job.conf" !in l[dir].files)
    && script != "job.conf"
  }

  /** The files of a prepared build, added to what its directory held. */
  function Filled(files: map<string, string>, l: Listing, script: string, params: seq<Pair>, session: string)
    : map<string, string>
    requires HasFile(l, script) && HasFile(l, "job.conf")
  {
    files[script := l[script].text]["job.params" := Render(EncodePairs(params))]
      ["job.conf" := l["job.conf"].text]["session_id.txt" := session + "\n"]
  }

  function FilesIn(l: Listing, dir: string): map<string, string>
  {
    if dir in l && l[dir].Directory? then l[dir].files else map[]
  }

  /** What prepare_build reports for a build in directory dir, in the order of its steps. */
  function PrepareError(l: Listing, script: string, dir: string, f: PrepareFaults): (ec: Error)
    ensures ec == Ok <==> CanPrepare(l, script, dir, f)
  {
    var files := FilesIn(l, dir);
    if f.createDir || HasFile(l, dir) || f.copyScript || !HasFile(l, script) || script in files then SystemError
    else if f.openParams then CantWriteJobParams
    else if f.copyConf || !HasFile(l, "job.conf") || "job.conf" in files || script == "job.conf" then CantWriteJobConf
    else if f.openSession then CantWriteSessionId
    else Ok
  }

  function TextOf(l: Listing, name: string): string { if HasFile(l, name) then l[name].text else "" }

  /** The files of a build directory in which a prepare stopped with that error. */
  function FilesLeft(files: map<string, string>, l: Listing, script: string, params: seq<Pair>, ec: Error)
    : (left: map<string, string>)
    ensures files.Keys <= left.Keys
  {
    var copied := files[script := TextOf(l, script)];
    var listed := copied["job.params" := Render(EncodePairs(params))];
    match ec
    case CantWriteJobParams => copied
    case CantWriteJobConf => listed
    case CantWriteSessionId => listed["job.conf" := TextOf(l, "job.conf")]
    case _ => files
  }

  /** The files after a prepare that ended with that error, or with none. */
  function FilesAfter(files: map<string, string>, l: Listing, script: string, params: seq<Pair>, session: string,
                      ec: Error): map<string, string>
  {
    if ec == Ok && HasFile(l, script) && HasFile(l, "job.conf") then Filled(files, l, script, params, session)
    else FilesLeft(files, l, script, params, ec)
  }

  /** prepare_build once it has settled on number n: if nothing stands in the way the number gets a complete
      build directory; otherwise no map changes, and the directory is left as it was if create_directory
      failed and with the files written so far if not. */
  ghost predicate PreparedAs(n: nat, m: Maps, l: Listing, m': Maps, l': Listing, number: Option<nat>,
                             script: string, params: seq<Pair>, session: string, f: PrepareFaults)
  {
    var dir := NumberString(n);
    && (number.Some? <==> CanPrepare(l, script, dir, f))
    && if number.Some? then
         && number.value == n
         && m' == m.(pending := Emplace(m.pending, n, dir))
         && l' == l[dir := Directory(Filled(FilesIn(l, dir), l, script, params, session))]
       else
         && m' == m
         && l' == if f.createDir || HasFile(l, dir) then l
                  else l[dir := Directory(FilesLeft(FilesIn(l, dir), l, script, params,
                                                    PrepareError(l, script, dir, f)))]
  }

  /** prepare_build as a whole settles on the next number. */
  ghost predicate Prepared(m: Maps, l: Listing, m': Maps, l': Listing, number: Option<nat>,
                           script: string, params: seq<Pair>, session: string, f: PrepareFaults)
  {
    PreparedAs(NextNumber(l), m, l, m', l', number, script, params, session, f)
  }

  /** The build directory is there, the script may run and output.txt opens. */
  predicate Starts(l: Listing, dir: string, force: bool, env: ExecuteEnv)
  {
    && (dir == "" || (dir in l && l[dir].Directory?))
    && !env.statFails && (env.executable || (force && !env.chmodFails)) && env.outputOpens
  }

  /** What execute reports when it ends before the script runs, in the order of its checks. */
  function StartError(l: Listing, dir: string, force: bool, env: ExecuteEnv): (ec: Error)
    ensures ec == Ok <==> Starts(l, dir, force, env)
  {
    if env.statFails || (dir != "" && !(dir in l && l[dir].Directory?)) then SystemError
    else if !env.executable && !force then ScriptIsNotExecutable
    else if !env.executable && env.chmodFails then SystemError
    else if !env.outputOpens then CantOpenBuildOutput
    else Ok
  }

  /** pending_builds_[n]: an unknown number gets an entry with the empty path. */
  function Looked(m: Maps, n: nat): Maps
  {
    m.(pending := Emplace(m.pending, n, ""))
  }

  function FinalCode(env: ExecuteEnv, before: ExitCode): ExitCode
  {
    if env.report.Some? then env.report.value else before
  }

  /** The line callbacks came in an order the runner allows for the two streams. */
  ghost predicate Printed(env: ExecuteEnv, lines: seq<string>)
  {
    JobRunner.Merge(lines, JobRunner.OutFrames(JobRunner.Flatten(env.out.arrivals), env.out.ending),
                    JobRunner.ErrFrames(JobRunner.Flatten(env.err.arrivals), env.err.ending))
  }

  /** The files of a build directory after its script ran. */
  function RunFiles(files: map<string, string>, env: ExecuteEnv, lines: seq<string>): map<string, string>
  {
    var written := files["output.txt" := JobRunner.Lines(lines)];
    if env.report.Some? && env.exitFileOpens then written["exitcode.txt" := Print(env.report.value) + "\n"] else written
  }

  function RunListing(l: Listing, dir: string, env: ExecuteEnv, lines: seq<string>): Listing
  {
    if dir in l && l[dir].Directory? then l[dir := Directory(RunFiles(l[dir].files, env, lines))] else l
  }

  function ExecuteMaps(m: Maps, l: Listing, n: nat, force: bool, env: ExecuteEnv, before: ExitCode): Maps
  {
    var looked := Looked(m, n);
    if Starts(l, looked.pending[n], force, env) then Move(looked, n, FinalCode(env, before) == 0) else looked
  }

  function ExecuteListing(m: Maps, l: Listing, n: nat, force: bool, env: ExecuteEnv, lines: seq<string>): Listing
  {
    var dir := Looked(m, n).pending[n];
    if Starts(l, dir, force, env) then RunListing(l, dir, env, lines) else l
  }

  /** What remove_all can leave behind when it fails, by name: some of the files. */
  type Stuck = map<string, map<string, string>>

  /** The removal of the entry dir fails. */
  predicate StuckAt(l: Listing, dir: string, stuck: Stuck) { dir in stuck && dir in l && l[dir].Directory? }

  /** The oldest count builds of m are removed until one removal fails. */
  ghost function Prune(m: map<nat, string>, l: Listing, count: nat, stuck: Stuck)
    : (r: (map<nat, string>, Listing, bool))
    requires count <= |m|
    decreases count
  {
    if count == 0 then (m, l, true) else
      var n := First(m);
      var dir := m[n];
      if StuckAt(l, dir, stuck) then (m, l[dir := Directory(stuck[dir])], false)
      else
        DropFirst(m, m, n);
        Prune(m - {n}, l - {dir}, count - 1, stuck)
  }

  function Excess(m: map<nat, string>, keep: nat): nat { if |m| > keep then |m| - keep else 0 }

  ghost function CleanupSuccessful(m: Maps, l: Listing, c: Config, stuck: Stuck): (map<nat, string>, Listing, bool)
  {
    Prune(m.successful, l, Excess(m.successful, c.keepSuccessful), stuck)
  }

  ghost function CleanupBroken(m: Maps, l: Listing, c: Config, stuck: Stuck): (map<nat, string>, Listing, bool)
  {
    Prune(m.broken, l, Excess(m.broken, c.keepBroken), stuck)
  }

  /** cleanup: the successful builds first, then, unless a removal failed, the broken ones. */
  ghost function Cleaned(m: Maps, l: Listing, c: Config, stuck: Stuck): (Maps, Listing, bool)
  {
    var s := CleanupSuccessful(m, l, c, stuck);
    if !s.2 then (m.(successful := s.0), s.1, false)
    else
      var b := CleanupBroken(m, s.1, c, stuck);
      (Maps(s.0, b.0, m.pending), b.1, b.2)
  }

  // ---- job -----------------------------------------------------------------------------

  /** The copies and writes of prepare_build, up to the first that fails: ec says which, and files is
      what the build directory holds then. */
  method WriteFiles(l: Listing, dir: string, script: string, params: seq<Pair>, session: string, f: PrepareFaults)
    returns (ec: Error, files: map<string, string>)
    requires !f.createDir && !HasFile(l, dir)
    ensures ec == PrepareError(l, script, dir, f)
    ensures files == FilesAfter(FilesIn(l, dir), l, script, params, session, ec)
  {
    ec, files := Ok, FilesIn(l, dir);
    if f.copyScript || !HasFile(l, script) || script in files {
      return SystemError, files;
    }
    files := files[script := l[script].text];
    if f.openParams {
      return CantWriteJobParams, files;
    }
    var text := ParamTransport.WriteParams(params);
    files := files["job.params" := text];
    if f.copyConf || !HasFile(l, "job.conf") || "job.conf" in files {
      return CantWriteJobConf, files;
    }
    files := files["job.conf" := l["job.conf"].text];
    if f.openSession {
      return CantWriteSessionId, files;
    }
    files := files["session_id.txt" := session + "\n"];
  }

  /** io_ctx.run() with the runner of the script: what the line callbacks are called with. */
  method RunScript(env: ExecuteEnv) returns (lines: seq<string>)
    ensures Printed(env, lines) && Split(JobRunner.Lines(lines)) == lines + [""]
  {
    var runner := new JobRunner.Runner(env.out, env.err);
    runner.Run();
    lines := runner.output;
    JobRunner.FramesFree(JobRunner.Flatten(env.out.arrivals), env.out.ending);
    JobRunner.FramesFree(JobRunner.Flatten(env.err.arrivals), env.err.ending);
    JobRunner.MergedLines(lines, runner.outLines, runner.errLines);
    JobRunner.LinesSplit(lines);
  }

  class Job {
    const config: Config
    const disk: Disk
    var successful: map<nat, string>
    var broken: map<nat, string>
    var pending: map<nat, string>

    constructor (config: Config, maps: Maps, disk: Disk)
      ensures this.config == config && this.disk == disk && State() == maps
    {
      this.config, this.disk := config, disk;
      successful, broken, pending := maps.successful, maps.broken, maps.pending;
    }

    function State(): Maps
      reads this
    {
      Maps(successful, broken, pending)
    }

    /** The scan of prepare_build for the greatest build number, over the entries in any order. */
    method MaxBuild() returns (max: int)
      ensures max == Greatest(BuildDirs(disk.entries))
      ensures max >= 0 ==> NumberString(max) in disk.entries && disk.entries[NumberString(max)].Directory?
      ensures forall name ::
                name in disk.entries && disk.entries[name].Directory? && IsBuild(name) ==> Value(name) <= max
    {
      var entries, todo := disk.entries, disk.entries.Keys;
      max := -1;
      while todo != {}
        invariant todo <= entries.Keys && max >= -1
        invariant max == -1 || max in BuildDirs(entries)
        invariant forall n :: n in BuildDirs(entries) && NumberString(n) !in todo ==> n <= max
      {
        var name :| name in todo;
        if entries[name].Directory? && IsBuild(name) {
          BuildNameRoundTrip(name);
          if Value(name) > max {
            max := Value(name);
          }
        }
        forall n | n in BuildDirs(entries) && NumberString(n) == name ensures n <= max {
          NumberStringRoundTrip(n);
        }
        todo := todo - {name};
      }
      forall name | name in entries && entries[name].Directory? && IsBuild(name)
        ensures Value(name) in BuildDirs(entries)
      {
        BuildNameRoundTrip(name);
      }
    }

    method PrepareBuild(params: seq<Pair>, session: string, f: PrepareFaults) returns (number: Option<nat>, ec: Error)
      modifies this`pending, disk
      ensures Prepared(old(State()), old(disk.entries), State(), disk.entries, number, config.script, params,
                       session, f)
      ensures ec == PrepareError(old(disk.entries), config.script, NumberString(NextNumber(old(disk.entries))), f)
      ensures number.Some? <==> ec == Ok
      ensures number.Some? ==> forall name ::
                name in old(disk.entries) && old(disk.entries)[name].Directory? && IsBuild(name) ==>
                  Value(name) < number.value
      ensures number.Some? && number.value > 0 ==>
                var last := NumberString(number.value - 1);
                last in old(disk.entries) && old(disk.entries)[last].Directory?
      ensures number.Some? ==>
                var l := old(disk.entries);
                var dir := NumberString(number.value);
                var had := if dir in l && l[dir].Directory? then l[dir].files else map[];
                && HasFile(l, config.script) && HasFile(l, "job.conf")
                && dir in disk.entries && disk.entries[dir].Directory?
                && var files := disk.entries[dir].files;
                && files.Keys == had.Keys + {config.script, "job.params", "job.conf", "session_id.txt"}
                && files["session_id.txt"] == session + "\n" && files["job.conf"] == l["job.conf"].text
                && (config.script !in {"job.params", "session_id.txt"} ==>
                      files[config.script] == l[config.script].text)
                && (forall name ::
                      name in had && name !in {config.script, "job.params", "job.conf", "session_id.txt"} ==>
                        files[name] == had[name])
      ensures forall name :: name != NumberString(NextNumber(old(disk.entries))) ==>
                && (name in disk.entries <==> name in old(disk.entries))
                && (name in disk.entries ==> disk.entries[name] == old(disk.entries)[name])
      ensures pending == if number == None || number.value in old(pending) then old(pending)
                         else old(pending)[number.value := NumberString(number.value)]
    {
      var max := MaxBuild();
      max := max + 1;
      number, ec := CreateBuild(max, params, session, f);
    }

    /** prepare_build from create_directory on. Other processes may have changed the directory since the
        number was found. */
    method CreateBuild(n: nat, params: seq<Pair>, session: string, f: PrepareFaults)
      returns (number: Option<nat>, ec: Error)
      modifies this`pending, disk
      ensures PreparedAs(n, old(State()), old(disk.entries), State(), disk.entries, number, config.script, params,
                         session, f)
      ensures ec == PrepareError(old(disk.entries), config.script, NumberString(n), f)
      ensures var l := old(disk.entries);
              var dir := NumberString(n);
              var had := if dir in l && l[dir].Directory? then l[dir].files else map[];
              ec == (if f.createDir || (dir in l && l[dir].PlainFile?) then SystemError
                     else if f.copyScript || !HasFile(l, config.script) || config.script in had then SystemError
                     else if f.openParams then CantWriteJobParams
                     else if f.copyConf || !HasFile(l, "job.conf") || "job.conf" in had || config.script == "job.conf"
                     then CantWriteJobConf
                     else if f.openSession then CantWriteSessionId else Ok)
      ensures number == if ec == Ok then Some(n) else None
      ensures ec != Ok && !f.createDir && !HasFile(old(disk.entries), NumberString(n)) ==>
                var l := old(disk.entries);
                var dir := NumberString(n);
                var had := if dir in l && l[dir].Directory? then l[dir].files else map[];
                && dir in disk.entries && disk.entries[dir].Directory?
                && disk.entries[dir].files.Keys == had.Keys
                     + (if ec == SystemError then {} else if ec == CantWriteJobParams then {config.script}
                        else if ec == CantWriteJobConf then {config.script, "job.params"}
                        else {config.script, "job.params", "job.conf"})
      ensures f.createDir || HasFile(old(disk.entries), NumberString(n)) ==> disk.entries == old(disk.entries)
      ensures number.Some? ==>
                var l := old(disk.entries);
                var dir := NumberString(number.value);
                var had := if dir in l && l[dir].Directory? then l[dir].files else map[];
                && HasFile(l, config.script) && HasFile(l, "job.conf")
                && dir in disk.entries && disk.entries[dir].Directory?
                && var files := disk.entries[dir].files;
                && files.Keys == had.Keys + {config.script, "job.params", "job.conf", "session_id.txt"}
                && files["session_id.txt"] == session + "\n" && files["job.conf"] == l["job.conf"].text
                && (config.script !in {"job.params", "session_id.txt"} ==>
                      files[config.script] == l[config.script].text)
                && (forall name ::
                      name in had && name !in {config.script, "job.params", "job.conf", "session_id.txt"} ==>
                        files[name] == had[name])
      ensures forall name :: name != NumberString(n) ==>
                && (name in disk.entries <==> name in old(disk.entries))
                && (name in disk.entries ==> disk.entries[name] == old(disk.entries)[name])
      ensures pending == if number == None || n in old(pending) then old(pending)
                         else old(pending)[n := NumberString(n)]
    {
      var dir := NumberString(n);
      if f.createDir || HasFile(disk.entries, dir) {
        return None, SystemError;
      }
      ghost var files;
      ec, files := FillBuild(dir, params, session, f);
      if ec != Ok {
        return None, ec;
      }
      pending := Emplace(pending, n, dir);
      return Some(n), Ok;
    }

    /** The files of the build directory are written one after the other. */
    method FillBuild(dir: string, params: seq<Pair>, session: string, f: PrepareFaults)
      returns (ec: Error, ghost files: map<string, string>)
      requires !f.createDir && !HasFile(disk.entries, dir)
      modifies disk
      ensures ec == PrepareError(old(disk.entries), config.script, dir, f)
      ensures files == FilesAfter(FilesIn(old(disk.entries), dir), old(disk.entries), config.script, params,
                                  session, ec)
      ensures disk.entries == old(disk.entries)[dir := Directory(files)]
    {
      var written;
      ec, written := WriteFiles(disk.entries, dir, config.script, params, session, f);
      disk.entries := disk.entries[dir := Directory(written)];
      files := written;
    }

    /** execute: before is the exit code variable of the caller, which keeps its value when the
        runner reports an error; lines are the callbacks, in their order. */
    method Execute(n: nat, force: bool, env: ExecuteEnv, before: ExitCode)
      returns (code: ExitCode, ec: Error, lines: seq<string>)
      modifies this, disk
      ensures State() == ExecuteMaps(old(State()), old(disk.entries), n, force, env, before)
      ensures disk.entries == ExecuteListing(old(State()), old(disk.entries), n, force, env, lines)
      ensures Starts(old(disk.entries), Looked(old(State()), n).pending[n], force, env) ==>
                && Printed(env, lines)
                && code == FinalCode(env, before)
                && ec == (if env.report == None then CantExecuteScript
                          else if env.exitFileOpens then Ok else CantOpenBuildExitCode)
      ensures !Starts(old(disk.entries), Looked(old(State()), n).pending[n], force, env) ==>
                code == before && ec == StartError(old(disk.entries), Looked(old(State()), n).pending[n], force, env)
      ensures var l := old(disk.entries);
              var dir := if n in old(pending) then old(pending)[n] else "";
              ec == (if env.statFails || (dir != "" && !(dir in l && l[dir].Directory?)) then SystemError
                     else if !env.executable && !force then ScriptIsNotExecutable
                     else if !env.executable && env.chmodFails then SystemError
                     else if !env.outputOpens then CantOpenBuildOutput
                     else if env.report == None then CantExecuteScript
                     else if !env.exitFileOpens then CantOpenBuildExitCode else Ok)
      ensures ec in {SystemError, ScriptIsNotExecutable, CantOpenBuildOutput} ==>
                && code == before && disk.entries == old(disk.entries)
                && successful == old(successful) && broken == old(broken)
                && pending == if n in old(pending) then old(pending) else old(pending)[n := ""]
      ensures ec !in {SystemError, ScriptIsNotExecutable, CantOpenBuildOutput} ==>
                var dir := if n in old(pending) then old(pending)[n] else "";
                && code == (if env.report.Some? then env.report.value else before)
                && pending == old(pending) - {n}
                && successful == (if code == 0 && n !in old(successful) then old(successful)[n := dir]
                                  else old(successful))
                && broken == if code != 0 && n !in old(broken) then old(broken)[n := dir] else old(broken)
      ensures ec !in {SystemError, ScriptIsNotExecutable, CantOpenBuildOutput} ==>
                JobRunner.Merge(lines, JobRunner.OutFrames(JobRunner.Flatten(env.out.arrivals), env.out.ending),
                                JobRunner.ErrFrames(JobRunner.Flatten(env.err.arrivals), env.err.ending))
      ensures ec !in {SystemError, ScriptIsNotExecutable, CantOpenBuildOutput} && n in old(pending)
              && old(pending)[n] in old(disk.entries) && old(disk.entries)[old(pending)[n]].Directory? ==>
                var dir := old(pending)[n];
                var had := old(disk.entries)[dir].files;
                && dir in disk.entries && disk.entries[dir].Directory?
                && var files := disk.entries[dir].files;
                && "output.txt" in files && Split(files["output.txt"]) == lines + [""]
                && (env.report.Some? && env.exitFileOpens ==>
                      "exitcode.txt" in files && files["exitcode.txt"] == Print(env.report.value) + "\n")
                && (forall name :: name != "output.txt"
                                   && (name != "exitcode.txt" || env.report == None || !env.exitFileOpens) ==>
                      (name in files <==> name in had) && (name in files ==> files[name] == had[name]))
      ensures forall name :: n !in old(pending) || name != old(pending)[n] ==> name != "" ==>
                && (name in disk.entries <==> name in old(disk.entries))
                && (name in disk.entries ==> disk.entries[name] == old(disk.entries)[name])
    {
      code, ec, lines := before, Ok, [];
      pending := Emplace(pending, n, "");
      var dir := pending[n];
      if env.statFails || (dir != "" && !(dir in disk.entries && disk.entries[dir].Directory?)) {
        return code, SystemError, [];
      }
      if !env.executable {
        if !force {
          return code, ScriptIsNotExecutable, [];
        }
        if env.chmodFails {
          return code, SystemError, [];
        }
      }
      if !env.outputOpens {
        return code, CantOpenBuildOutput, [];
      }
      code, ec, lines := RunAndMove(n, dir, env, before);
    }

    /** execute once output.txt is open: the script runs, its lines and its exit code are written, and the
        build moves out of the pending map. */
    method RunAndMove(n: nat, dir: string, env: ExecuteEnv, before: ExitCode)
      returns (code: ExitCode, ec: Error, lines: seq<string>)
      requires n in pending && pending[n] == dir
      modifies this, disk
      ensures Printed(env, lines)
      ensures disk.entries == RunListing(old(disk.entries), dir, env, lines)
      ensures State() == Move(old(State()), n, code == 0) && code == FinalCode(env, before)
      ensures ec == (if env.report == None then CantExecuteScript
                     else if env.exitFileOpens then Ok else CantOpenBuildExitCode)
      ensures dir in old(disk.entries) && old(disk.entries)[dir].Directory? ==>
                var had := old(disk.entries)[dir].files;
                && dir in disk.entries && disk.entries[dir].Directory?
                && var files := disk.entries[dir].files;
                && "output.txt" in files && Split(files["output.txt"]) == lines + [""]
                && (env.report.Some? && env.exitFileOpens ==>
                      "exitcode.txt" in files && files["exitcode.txt"] == Print(env.report.value) + "\n")
                && (forall name :: name != "output.txt"
                                   && (name != "exitcode.txt" || env.report == None || !env.exitFileOpens) ==>
                      (name in files <==> name in had) && (name in files ==> files[name] == had[name]))
    {
      code, ec := before, Ok;
      lines := RunScript(env);
      if env.report == None {
        ec := CantExecuteScript;
      } else {
        code := env.report.value;
        if !env.exitFileOpens {
          ec := CantOpenBuildExitCode;
        }
      }
      disk.entries := RunListing(disk.entries, dir, env, lines);
      pending := pending - {n};
      if code == 0 {
        successful := Emplace(successful, n, dir);
      } else {
        broken := Emplace(broken, n, dir);
      }
    }

    /** One of the two removal loops of cleanup. */
    method RemoveOldest(builds: map<nat, string>, count: nat, stuck: Stuck) returns (left: map<nat, string>, ok: bool)
      requires count <= |builds|
      modifies disk
      ensures (left, disk.entries, ok) == Prune(builds, old(disk.entries), count, stuck)
    {
      left := builds;
      var i := 0;
      while i < count
        invariant i <= count && count - i <= |left|
        invariant Prune(left, disk.entries, count - i, stuck) == Prune(builds, old(disk.entries), count, stuck)
      {
        FirstExists(left);
        var n :| IsFirst(left, n);
        FirstUnique(left, n);
        var dir := left[n];
        DropFirst(left, left, n);
        if StuckAt(disk.entries, dir, stuck) {
          disk.entries := disk.entries[dir := Directory(stuck[dir])];
          return left, false;
        }
        disk.entries := disk.entries - {dir};
        left := left - {n};
        i := i + 1;
      }
      return left, true;
    }

    method Cleanup(stuck: Stuck) returns (ec: Error)
      modifies this, disk
      ensures (State(), disk.entries, ec == Ok) == Cleaned(old(State()), old(disk.entries), config, stuck)
      ensures ec == Ok || ec == SystemError
    {
      var ok;
      successful, ok := RemoveOldest(successful, Excess(successful, config.keepSuccessful), stuck);
      if !ok {
        return SystemError;
      }
      broken, ok := RemoveOldest(broken, Excess(broken, config.keepBroken), stuck);
      return if ok then Ok else SystemError;
    }
  }

  // ---- load_job ------------------------------------------------------------------------

  /** What load_job cannot do: find the job directory, open job.conf, open job.params. */
  datatype LoadFaults = LoadFaults(noDirectory: bool, confCloses: bool, paramsClose: bool)

  /** conf[key] creates an empty value for a key that is not there. */
  function Indexed(conf: map<string, string>, key: string): string
  {
    if key in conf then conf[key] else ""
  }

  /** The checks on job.conf; the count of keep_last_break_builds is never tested for. */
  function ConfigOf(conf: map<string, string>, params: seq<Pair>): Option<Config>
  {
    var s := U32FromString(Indexed(conf, "keep_last_success_builds"));
    var b := U32FromString(Indexed(conf, "keep_last_break_builds"));
    if "script" in conf && "keep_last_success_builds" in conf && s.Some? && b.Some?
    then Some(Config(conf["script"], s.value, b.value, params)) else None
  }

  /** The configuration a job directory gives, or the error. */
  function ReadConfig(ws: LineEnds, l: Listing, f: LoadFaults): (Option<Config>, Error)
  {
    if f.noDirectory then (None, JobDirDoesntExist)
    else if f.confCloses || !HasFile(l, "job.conf") then (None, CantReadJobConf)
    else
      match RawMap(ws, l["job.conf"].text)
      case None => (None, CantReadJobConf)
      case Some(conf) =>
        match ConfigOf(conf, [])
        case None => (None, CantReadJobConf)
        case Some(c) =>
          if c.script != "" && c.script !in l then (None, ScriptDoesntExist)
          else if f.paramsClose || !HasFile(l, "job.params") then (Some(c), Ok)
          else
            match ReadDecoded(ws, l["job.params"].text)
            case None => (None, CantReadJobParams)
            case Some(params) => (Some(c.(params := params)), Ok)
  }

  /** The builds of class c among the entries that are not in todo. */
  function Seen(l: Listing, c: Class, todo: set<string>): map<nat, string>
  {
    map n | n in Numbered(l) && NumberString(n) !in todo && ClassOf(l[NumberString(n)]) == c :: NumberString(n)
  }

  lemma SeenStep(l: Listing, c: Class, todo: set<string>, name: string)
    requires name in todo && name in l
    ensures Seen(l, c, todo - {name}) ==
            if IsBuild(name) && ClassOf(l[name]) == c then Emplace(Seen(l, c, todo), Value(name), name)
            else Seen(l, c, todo)
  {
    if IsBuild(name) { BuildNameRoundTrip(name); }
    forall n: nat | NumberString(n) == name ensures n <= MAX_BUILD <==> IsBuild(name) {
      NumberStringRoundTrip(n);
    }
    forall n: nat | NumberString(n) == name ensures Value(name) == n {
      NumberStringRoundTrip(n);
    }
  }

  /** What the maps say of each entry with a build name. */
  lemma ReloadShows(l: Listing, maps: Maps)
    requires maps == Reload(l)
    ensures forall name :: name in l && IsBuild(name) ==>
              var e := if l[name].Directory? && "exitcode.txt" in l[name].files
                       then U32FromString(FirstLine(l[name].files["exitcode.txt"])) else None;
              && (Value(name) in maps.pending <==> e == None)
              && (Value(name) in maps.successful <==> e == Some(0))
              && (Value(name) in maps.broken <==> e != None && e != Some(0))
    ensures forall n :: n in maps.pending || n in maps.successful || n in maps.broken ==>
              n <= MAX_BUILD && NumberString(n) in l
    ensures forall n :: n in maps.pending ==> maps.pending[n] == NumberString(n)
    ensures forall n :: n in maps.successful ==> maps.successful[n] == NumberString(n)
    ensures forall n :: n in maps.broken ==> maps.broken[n] == NumberString(n)
  {
    NoNumber();
    forall name | name in l && IsBuild(name)
      ensures Value(name) <= MAX_BUILD && NumberString(Value(name)) == name
    {
      BuildNameRoundTrip(name);
    }
  }

  /** The scan of load_job, over the entries in any order. */
  method ScanBuilds(l: Listing) returns (maps: Maps)
    ensures maps == Reload(l)
  {
    maps := Maps(map[], map[], map[]);
    var todo := l.Keys;
    while todo != {}
      invariant todo <= l.Keys
      invariant maps == Maps(Seen(l, Successful, todo), Seen(l, Broken, todo), Seen(l, Pending, todo))
    {
      var name :| name in todo;
      SeenStep(l, Successful, todo, name);
      SeenStep(l, Broken, todo, name);
      SeenStep(l, Pending, todo, name);
      if IsBuild(name) {
        match U32FromString(ExitText(l[name]))
        case None => maps := maps.(pending := Emplace(maps.pending, Value(name), name));
        case Some(e) =>
          if e == 0 {
            maps := maps.(successful := Emplace(maps.successful, Value(name), name));
          } else {
            maps := maps.(broken := Emplace(maps.broken, Value(name), name));
          }
      }
      todo := todo - {name};
    }
  }

  /** The two keep counts are written as these numbers. */
  predicate IsPrinted(conf: map<string, string>, s: nat, b: nat)
  {
    && "keep_last_success_builds" in conf && conf["keep_last_success_builds"] == Digits(s)
    && "keep_last_break_builds" in conf && conf["keep_last_break_builds"] == Digits(b)
  }

  /** Counts below 2^32 are what the two keys say, each for its own class. */
  lemma PrintedCounts(conf: map<string, string>, c: Config)
    requires "keep_last_success_builds" in conf && "keep_last_break_builds" in conf
    requires Some(c.keepSuccessful) == U32FromString(conf["keep_last_success_builds"])
    requires Some(c.keepBroken) == U32FromString(conf["keep_last_break_builds"])
    ensures forall s: nat, b: nat :: IsPrinted(conf, s, b) && s < TWO32 && b < TWO32 ==>
              c.keepSuccessful == s && c.keepBroken == b
  {
    forall s: nat, b: nat | IsPrinted(conf, s, b) && s < TWO32 && b < TWO32
      ensures c.keepSuccessful == s && c.keepBroken == b
    {
      PrintedNumber(s);
      PrintedNumber(b);
    }
  }

  /** The part of load_job that reads job.conf and job.params. */
  method LoadConfig(ws: LineEnds, l: Listing, f: LoadFaults) returns (c: Option<Config>, ec: Error)
    ensures ec == ReadConfig(ws, l, f).1 && (c.Some? <==> ec == Ok) && (c.Some? ==> c == ReadConfig(ws, l, f).0)
    ensures f.noDirectory ==> ec == JobDirDoesntExist
    ensures !f.noDirectory && (f.confCloses || !HasFile(l, "job.conf")) ==> ec == CantReadJobConf
    ensures !f.noDirectory && !f.confCloses && HasFile(l, "job.conf") ==>
              match RawMap(ws, l["job.conf"].text)
              case None => ec == CantReadJobConf
              case Some(conf) =>
                if "script" !in conf || "keep_last_success_builds" !in conf || "keep_last_break_builds" !in conf
                   || U32FromString(conf["keep_last_success_builds"]) == None
                   || U32FromString(conf["keep_last_break_builds"]) == None then ec == CantReadJobConf
                else if conf["script"] != "" && conf["script"] !in l then ec == ScriptDoesntExist
                else if !f.paramsClose && HasFile(l, "job.params") && ReadDecoded(ws, l["job.params"].text) == None
                then ec == CantReadJobParams
                else
                  && c.Some? && c.value.script == conf["script"]
                  && Some(c.value.keepSuccessful) == U32FromString(conf["keep_last_success_builds"])
                  && Some(c.value.keepBroken) == U32FromString(conf["keep_last_break_builds"])
                  && if f.paramsClose || !HasFile(l, "job.params") then c.value.params == []
                     else ReadDecoded(ws, l["job.params"].text) == Some(c.value.params)
  {
    if f.noDirectory {
      return None, JobDirDoesntExist;
    }
    if f.confCloses || !HasFile(l, "job.conf") {
      return None, CantReadJobConf;
    }
    var conf := RawMap(ws, l["job.conf"].text);
    if conf == None || "script" !in conf.value || "keep_last_success_builds" !in conf.value {
      return None, CantReadJobConf;
    }
    var config := ConfigOf(conf.value, []);
    ConfigNeedsAllKeys(conf.value);
    if config == None {
      return None, CantReadJobConf;
    }
    if config.value.script != "" && config.value.script !in l {
      return None, ScriptDoesntExist;
    }
    var params: seq<Pair> := [];
    if !f.paramsClose && HasFile(l, "job.params") {
      match ReadDecoded(ws, l["job.params"].text)
      case None => return None, CantReadJobParams;
      case Some(read) => params := read;
    }
    return Some(config.value.(params := params)), Ok;
  }

  method LoadJob(ws: LineEnds, disk: Disk, f: LoadFaults) returns (job: Option<Job>, ec: Error)
    ensures ec == ReadConfig(ws, disk.entries, f).1
    ensures job.Some? <==> ec == Ok
    ensures job.Some? ==> job.value.disk == disk && job.value.State() == Reload(disk.entries)
    ensures job.Some? ==> Some(job.value.config) == ReadConfig(ws, disk.entries, f).0
    ensures job.Some? ==> HasFile(disk.entries, "job.conf") && RawMap(ws, disk.entries["job.conf"].text).Some?
    ensures job.Some? ==>
              var conf := RawMap(ws, disk.entries["job.conf"].text).value;
              && "script" in conf && "keep_last_success_builds" in conf && "keep_last_break_builds" in conf
              && job.value.config.script == conf["script"]
              && Some(job.value.config.keepSuccessful) == U32FromString(conf["keep_last_success_builds"])
              && Some(job.value.config.keepBroken) == U32FromString(conf["keep_last_break_builds"])
    ensures job.Some? ==> forall s: nat, b: nat ::
              IsPrinted(RawMap(ws, disk.entries["job.conf"].text).value, s, b) && s < TWO32 && b < TWO32 ==>
                job.value.config.keepSuccessful == s && job.value.config.keepBroken == b
    ensures job.Some? ==>
              if f.paramsClose || !HasFile(disk.entries, "job.params") then job.value.config.params == []
              else ReadDecoded(ws, disk.entries["job.params"].text) == Some(job.value.config.params)
  {
    var config;
    config, ec := LoadConfig(ws, disk.entries, f);
    if config == None {
      return None, ec;
    }
    var maps := ScanBuilds(disk.entries);
    var loaded := new Job(config.value, maps, disk);
    PrintedCounts(RawMap(ws, disk.entries["job.conf"].text).value, config.value);
    return Some(loaded), Ok;
  }

  /** Although only two of the three keys are tested for, a job.conf is accepted exactly when it has
      all three and both counts are numbers. */
  lemma ConfigNeedsAllKeys(conf: map<string, string>)
    ensures ConfigOf(conf, []).Some? <==>
              && "script" in conf && "keep_last_success_builds" in conf && "keep_last_break_builds" in conf
              && U32FromString(conf["keep_last_success_builds"]).Some?
              && U32FromString(conf["keep_last_break_builds"]).Some?
  {
    NoNumber();
  }
}
