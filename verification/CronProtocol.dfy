/** The protocol between cis_cron, which saves the crons file and notifies, and the daemon, whose
    watcher thread posts an update, waits, and posts again when it is woken. */
module CronProtocol {
  import opened CronText

  /** Where the watcher thread is in its loop: before the stopped() test, before post, between post
      and wait, in wait, or past the loop. */
  datatype Watcher = Checking | Posting | Posted | Waiting | Done

  /** unsent holds the commands that have saved but not yet notified; queued counts the posted
      updates that have not run. */
  datatype State = State(file: string, timers: set<Entry>, queued: nat, watcher: Watcher, unsent: set<nat>,
                         stopped: bool, stopSent: bool)

  function Start(file: string): State
  {
    State(file, {}, 0, Checking, {}, false, false)
  }

  datatype Action =
    | Save(client: nat, text: string)  // a command saves; nobody sees a half-written file
    | Notify(client: nat)
    | Check                            // while(!io_ctx.stopped())
    | Post
    | Wait
    | Wake                             // a condition may wake its waiter for no reason
    | RunUpdate(readable: bool)        // the main thread runs a queued update
    | Stop                             // the signal handler: io_ctx.stop()
    | StopNotify                       // the signal handler: notify_one()

  predicate Enabled(s: State, a: Action)
  {
    match a
    case Save(c, _) => c !in s.unsent
    case Notify(c) => c in s.unsent
    case Check => s.watcher == Checking
    case Post => s.watcher == Posting
    case Wait => s.watcher == Posted
    case Wake => s.watcher == Waiting
    case RunUpdate(_) => s.queued > 0 && !s.stopped
    case Stop => !s.stopped
    case StopNotify => s.stopped && !s.stopSent
  }

  /** notify_one reaches a waiting watcher and is forgotten otherwise. */
  function Woken(w: Watcher): Watcher { if w == Waiting then Checking else w }

  function Next(s: State, a: Action): State
    requires Enabled(s, a)
  {
    match a
    case Save(c, text) => s.(file := text, unsent := s.unsent + {c})
    case Notify(c) => s.(unsent := s.unsent - {c}, watcher := Woken(s.watcher))
    case Check => s.(watcher := if s.stopped then Done else Posting)
    case Post => s.(watcher := Posted, queued := s.queued + 1)
    case Wait => s.(watcher := Waiting)
    case Wake => s.(watcher := Checking)
    case RunUpdate(readable) => s.(queued := s.queued - 1, timers := if readable then Parse(s.file) else s.timers)
    case Stop => s.(stopped := true)
    case StopNotify => s.(stopSent := true, watcher := Woken(s.watcher))
  }

  predicate Fresh(s: State) { s.timers == Parse(s.file) }

  /** The timers match the file, or something is under way that will make them match. */
  predicate Covered(s: State)
  {
    Fresh(s) || s.queued > 0 || s.watcher == Checking || s.watcher == Posting || s.unsent != {}
  }

  /** The action uses up the last thing under way without having any effect: a notify between post
      and wait, or an update that cannot read the file. */
  predicate Loses(s: State, a: Action)
  {
    && !Fresh(s)
    && match a
       case Notify(c) => s.watcher == Posted && s.queued == 0 && s.unsent == {c}
       case RunUpdate(readable) =>
         !readable && s.queued == 1 && s.unsent == {} && s.watcher != Checking && s.watcher != Posting
       case _ => false
  }

  /** One step of a running daemon keeps the timers covered exactly when it is not such an action. */
  lemma StepCoversExactly(s: State, a: Action)
    requires Covered(s) && s.watcher != Done && Enabled(s, a) && !Next(s, a).stopped
    ensures Covered(Next(s, a)) <==> !Loses(s, a)
  {
    match a
    case Save(c, _) => assert c in Next(s, a).unsent;
    case Notify(c) =>
      assert Next(s, a).unsent == s.unsent - {c};
      assert (s.unsent - {c} == {}) <==> (s.unsent == {c});
    case _ =>
  }

  // ---- runs ----------------------------------------------------------------------------

  predicate Leads(s: State, a: Action, s': State)
  {
    Enabled(s, a) && s' == Next(s, a)
  }

  /** states[0] is s, and each action leads from one state to the next. */
  ghost predicate Run(s: State, states: seq<State>, actions: seq<Action>)
  {
    && |states| == |actions| + 1 && states[0] == s
    && forall i :: 0 <= i < |actions| ==> Leads(states[i], actions[i], states[i + 1])
  }

  lemma RunCons(s: State, a: Action, states: seq<State>, actions: seq<Action>)
    requires Enabled(s, a) && Run(Next(s, a), states, actions)
    ensures Run(s, [s] + states, [a] + actions)
  {
    var states', actions' := [s] + states, [a] + actions;
    forall i | 0 <= i < |actions'|
      ensures Leads(states'[i], actions'[i], states'[i + 1])
    {
      assert i > 0 ==> Leads(states[i - 1], actions[i - 1], states[i]);
    }
  }

  /** The hypothesis on a run: no notify falls between post and wait while no update is queued, and
      updates can read the file. */
  predicate Heard(s: State, a: Action)
  {
    (a.Notify? ==> s.watcher != Posted || s.queued > 0) && (a.RunUpdate? ==> a.readable)
  }

  /** In every state of every such run, as long as no stop was requested, the timers match the file,
      or an update is queued, or the watcher is about to post, or a command is about to notify. */
  lemma {:induction false} AlwaysCovered(file: string, states: seq<State>, actions: seq<Action>, i: nat)
    requires Run(Start(file), states, actions) && i <= |actions| && !states[i].stopped
    requires forall k :: 0 <= k < i ==> Heard(states[k], actions[k])
    ensures Covered(states[i]) && states[i].watcher != Done
  {
    if i > 0 {
      var s, a := states[i - 1], actions[i - 1];
      assert Leads(s, a, states[i]);
      AlwaysCovered(file, states, actions, i - 1);
      assert Heard(s, a);
      StepCoversExactly(s, a);
    }
  }

  lemma {:induction false} CoveredBefore(s: State, states: seq<State>, actions: seq<Action>, i: nat)
    requires Covered(s) && s.watcher != Done && Run(s, states, actions)
    requires i <= |actions| && !states[i].stopped
    ensures states[i].watcher != Done
    ensures (forall k :: 0 <= k < i ==> !Loses(states[k], actions[k])) ==> Covered(states[i])
  {
    if i > 0 {
      assert Leads(states[i - 1], actions[i - 1], states[i]);
      CoveredBefore(s, states, actions, i - 1);
      if Covered(states[i - 1]) { StepCoversExactly(states[i - 1], actions[i - 1]); }
    }
  }

  lemma {:induction false} NotStopped(s: State, states: seq<State>, actions: seq<Action>, i: nat)
    requires Run(s, states, actions) && i <= |actions| && !states[|actions|].stopped
    ensures !states[i].stopped
    decreases |actions| - i
  {
    if i < |actions| {
      NotStopped(s, states, actions, i + 1);
      assert Leads(states[i], actions[i], states[i + 1]);
    }
  }

  /** Over any run of a running daemon the timers stay covered throughout exactly when no action loses
      the last thing under way. */
  lemma CoveredExactly(s: State, states: seq<State>, actions: seq<Action>)
    requires Covered(s) && s.watcher != Done && Run(s, states, actions) && !states[|actions|].stopped
    ensures (forall i :: 0 <= i < |states| ==> Covered(states[i]))
       <==> (forall k :: 0 <= k < |actions| ==> !Loses(states[k], actions[k]))
  {
    if forall k :: 0 <= k < |actions| ==> !Loses(states[k], actions[k]) {
      forall i | 0 <= i < |states| ensures Covered(states[i]) {
        NotStopped(s, states, actions, i);
        CoveredBefore(s, states, actions, i);
      }
    }
    if forall i :: 0 <= i < |states| ==> Covered(states[i]) {
      forall k | 0 <= k < |actions| ensures !Loses(states[k], actions[k]) {
        NotStopped(s, states, actions, k);
        NotStopped(s, states, actions, k + 1);
        CoveredBefore(s, states, actions, k);
        assert Leads(states[k], actions[k], states[k + 1]);
        StepCoversExactly(states[k], actions[k]);
      }
    }
  }

  function Distance(s: State): nat
  {
    if Fresh(s) then 0
    else if s.queued > 0 then 1
    else match s.watcher case Posting => 2 case Checking => 3 case Waiting => 4 case Posted => 5 case Done => 6
  }

  /** The daemon catches up: from every covered state of a running daemon, some actions of its own
      and of the commands that still have to notify lead to timers that match the file as it is. */
  lemma {:induction false} CatchesUp(s: State) returns (states: seq<State>, actions: seq<Action>)
    requires Covered(s) && !s.stopped && s.watcher != Done
    ensures Run(s, states, actions)
    ensures forall a :: a in actions ==> !a.Save? && !a.Wake? && !a.Stop?
    ensures Fresh(states[|actions|]) && states[|actions|].file == s.file
    decreases Distance(s)
  {
    if Fresh(s) {
      return [s], [];
    }
    var a := StepCloser(s);
    states, actions := CatchesUp(Next(s, a));
    RunCons(s, a, states, actions);
    states, actions := [s] + states, [a] + actions;
  }

  lemma StepCloser(s: State) returns (a: Action)
    requires Covered(s) && !s.stopped && s.watcher != Done && !Fresh(s)
    ensures Enabled(s, a) && !a.Save? && !a.Wake? && !a.Stop?
    ensures var s' := Next(s, a);
            Covered(s') && !s'.stopped && s'.watcher != Done && s'.file == s.file && Distance(s') < Distance(s)
  {
    if s.queued > 0 {
      a := RunUpdate(true);
    } else {
      match s.watcher
      case Checking => a := Check;
      case Posting => a := Post;
      case Posted => a := Wait;
      case Waiting =>
        var c :| c in s.unsent;
        a := Notify(c);
    }
  }

  /** What the hypothesis excludes: a command that saves and notifies between post and wait, after
      the posted update has run, leaves the daemon waiting with the old timers. */
  lemma LostNotify(s: State, text: string) returns (states: seq<State>, actions: seq<Action>)
    requires s.watcher == Posted && s.queued == 0 && s.unsent == {} && !s.stopped
    requires s.timers != Parse(text)
    ensures Run(s, states, actions) && actions == [Save(0, text), Notify(0), Wait]
    ensures states[3].file == text && !Fresh(states[3]) && Stuck(states[3])
  {
    var s1 := Next(s, Save(0, text));
    var s2 := Next(s1, Notify(0));
    var s3 := Next(s2, Wait);
    assert s2.unsent == {};
    RunCons(s2, Wait, [s3], []);
    RunCons(s1, Notify(0), [s2, s3], [Wait]);
    RunCons(s, Save(0, text), [s1, s2, s3], [Notify(0), Wait]);
    states, actions := [s] + [s1, s2, s3], [Save(0, text)] + [Notify(0), Wait];
  }

  /** The daemon does come by such a state: it is there after its first update. */
  lemma FirstUpdate(file: string) returns (states: seq<State>, actions: seq<Action>)
    ensures Run(Start(file), states, actions) && actions == [Check, Post, RunUpdate(true)]
    ensures var s := states[3];
            s.watcher == Posted && s.queued == 0 && s.unsent == {} && !s.stopped && s.timers == Parse(file)
  {
    var s1 := Next(Start(file), Check);
    var s2 := Next(s1, Post);
    var s3 := Next(s2, RunUpdate(true));
    RunCons(s2, RunUpdate(true), [s3], []);
    RunCons(s1, Post, [s2, s3], [RunUpdate(true)]);
    RunCons(Start(file), Check, [s1, s2, s3], [Post, RunUpdate(true)]);
    states, actions := [Start(file)] + [s1, s2, s3], [Check] + [Post, RunUpdate(true)];
  }

  /** Nothing is under way. */
  predicate Stuck(s: State)
  {
    s.watcher == Waiting && s.queued == 0 && s.unsent == {} && !s.stopped
  }

  lemma StuckStays(s: State, a: Action)
    requires Stuck(s) && Enabled(s, a)
    ensures a.Save? || a.Wake? || a.Stop?
  {
  }

  /** Actions of the daemon itself and of commands that have saved already. */
  predicate OnItsOwn(actions: seq<Action>)
  {
    forall i :: 0 <= i < |actions| ==> !actions[i].Save? && !actions[i].Wake? && !actions[i].Stop?
  }

  /** Nothing of that kind can happen any more. */
  ghost predicate Settled(s: State)
  {
    forall states: seq<State>, actions: seq<Action> :: Run(s, states, actions) && OnItsOwn(actions) ==> actions == []
  }

  /** A running daemon that is left alone does nothing any more exactly when nothing is under way; so a
      lost notify is made up for only by another command, a spurious wake-up or a stop. */
  lemma SettledExactly(s: State)
    requires !s.stopped && s.watcher != Done
    ensures Settled(s) <==> Stuck(s)
  {
    if Stuck(s) {
      forall a | Enabled(s, a) ensures a.Save? || a.Wake? || a.Stop? { StuckStays(s, a); }
      forall states: seq<State>, actions: seq<Action> | Run(s, states, actions) && OnItsOwn(actions)
        ensures actions == []
      {
        assert actions != [] ==> Leads(states[0], actions[0], states[1]);
      }
    } else {
      var a :=
        if s.watcher == Checking then Check else if s.watcher == Posting then Post
        else if s.watcher == Posted then Wait else if s.queued > 0 then RunUpdate(true)
        else var c :| c in s.unsent; Notify(c);
      assert Run(s, [s, Next(s, a)], [a]);
    }
  }

  /** Another command or a spurious wake-up does put an end to it: either is the first action of a run that
      leads to timers that match the file as it is then. */
  lemma StuckEnds(s: State, a: Action) returns (states: seq<State>, actions: seq<Action>)
    requires Stuck(s) && Enabled(s, a) && (a.Save? || a.Wake?)
    ensures Run(s, states, actions) && actions != [] && actions[0] == a && OnItsOwn(actions[1..])
    ensures Fresh(states[|actions|]) && states[|actions|].file == if a.Save? then a.text else s.file
  {
    var next := Next(s, a);
    assert a.Save? ==> a.client in next.unsent;
    states, actions := CatchesUp(next);
    assert OnItsOwn(actions) by {
      forall i | 0 <= i < |actions| ensures !actions[i].Save? && !actions[i].Wake? && !actions[i].Stop? {
        assert actions[i] in actions;
      }
    }
    RunCons(s, a, states, actions);
    assert ([a] + actions)[1..] == actions;
    states, actions := [s] + states, [a] + actions;
  }

  /** What is still under way, weighted so that each action takes some of it away. */
  function Pending(s: State): nat
  {
    5 * |s.unsent| + (if s.stopSent then 0 else 5) + s.queued
    + match s.watcher case Waiting => 0 case Posted => 1 case Posting => 3 case Checking => 4 case Done => 0
  }

  lemma StepSpends(s: State, a: Action)
    requires Enabled(s, a) && !a.Save? && !a.Wake? && !a.Stop?
    ensures Pending(Next(s, a)) < Pending(s)
  {
    if a.Notify? { assert |s.unsent - {a.client}| == |s.unsent| - 1; }
  }

  lemma {:induction false} RunSpends(s: State, states: seq<State>, actions: seq<Action>, i: nat)
    requires Run(s, states, actions) && OnItsOwn(actions) && i <= |actions|
    ensures i + Pending(states[i]) <= Pending(s)
    ensures states[i].stopped == s.stopped && states[i].file == s.file
  {
    if i > 0 {
      RunSpends(s, states, actions, i - 1);
      assert Leads(states[i - 1], actions[i - 1], states[i]);
      StepSpends(states[i - 1], actions[i - 1]);
    }
  }

  lemma {:induction false} CoveredRuns(s: State, states: seq<State>, actions: seq<Action>, i: nat)
    requires Covered(s) && !s.stopped && s.watcher != Done
    requires Run(s, states, actions) && OnItsOwn(actions) && i <= |actions|
    requires forall k :: 0 <= k < |actions| ==> Heard(states[k], actions[k])
    ensures Covered(states[i]) && states[i].watcher != Done
  {
    if i > 0 {
      CoveredRuns(s, states, actions, i - 1);
      RunSpends(s, states, actions, i);
      assert Leads(states[i - 1], actions[i - 1], states[i]) && Heard(states[i - 1], actions[i - 1]);
      StepCoversExactly(states[i - 1], actions[i - 1]);
    }
  }

  /** Catching up is inevitable: left alone, with every notify heard and every read succeeding, a covered
      daemon does only so much, in whatever order, and when it is done the timers match the file. */
  lemma AlwaysCatchesUp(s: State, states: seq<State>, actions: seq<Action>)
    requires Covered(s) && !s.stopped && s.watcher != Done
    requires Run(s, states, actions) && OnItsOwn(actions)
    requires forall k :: 0 <= k < |actions| ==> Heard(states[k], actions[k])
    ensures |actions| <= Pending(s)
    ensures Settled(states[|actions|]) ==> Fresh(states[|actions|]) && states[|actions|].file == s.file
  {
    RunSpends(s, states, actions, |actions|);
    CoveredRuns(s, states, actions, |actions|);
    SettledExactly(states[|actions|]);
  }

  // ---- stopping ------------------------------------------------------------------------

  /** Once the stop was requested it stays so, and no update runs any more. */
  lemma {:induction false} StopIsFinal(s: State, states: seq<State>, actions: seq<Action>, i: nat)
    requires Enabled(s, Stop) && Run(Next(s, Stop), states, actions) && i <= |actions|
    ensures states[i].stopped && states[i].timers == s.timers
    ensures forall k :: 0 <= k < i ==> !actions[k].RunUpdate?
  {
    if i > 0 {
      StopIsFinal(s, states, actions, i - 1);
      assert Leads(states[i - 1], actions[i - 1], states[i]);
    }
  }

  /** The watcher will leave its loop at its next test, or has left it. */
  predicate Leaving(s: State)
  {
    s.stopped && (s.watcher == Checking || s.watcher == Done)
  }

  /** The stop notification has been sent and the watcher is still on its way into wait. */
  predicate Deaf(s: State)
  {
    s.stopped && s.stopSent && (s.watcher == Posting || s.watcher == Posted || s.watcher == Waiting)
  }

  /** No notify and no spurious wake-up comes after the stop. */
  predicate Unnotified(actions: seq<Action>)
  {
    forall i :: 0 <= i < |actions| ==> !actions[i].Notify? && !actions[i].Wake?
  }

  /** Its own next action ends it. */
  lemma LeavingLeaves(s: State, a: Action)
    requires Leaving(s) && Enabled(s, a)
    ensures Leaving(Next(s, a)) && (a == Check ==> Next(s, a).watcher == Done) && a != Post && a != Wait
  {
  }

  lemma DeafStays(s: State, a: Action)
    requires Deaf(s) && Enabled(s, a)
    ensures Deaf(Next(s, a)) || (s.watcher == Waiting && (a.Notify? || a.Wake?))
  {
  }

  /** A watcher that is leaving keeps leaving, whatever happens. */
  lemma {:induction false} LeavingRuns(s: State, states: seq<State>, actions: seq<Action>, i: nat)
    requires Leaving(s) && Run(s, states, actions) && i <= |actions|
    ensures Leaving(states[i])
  {
    if i > 0 {
      LeavingRuns(s, states, actions, i - 1);
      assert Leads(states[i - 1], actions[i - 1], states[i]);
      LeavingLeaves(states[i - 1], actions[i - 1]);
    }
  }

  /** A deaf watcher stays in or before wait until it is notified or woken. */
  lemma {:induction false} DeafRuns(s: State, states: seq<State>, actions: seq<Action>, i: nat)
    requires Deaf(s) && Run(s, states, actions) && Unnotified(actions) && i <= |actions|
    ensures Deaf(states[i])
  {
    if i > 0 {
      DeafRuns(s, states, actions, i - 1);
      assert Leads(states[i - 1], actions[i - 1], states[i]);
      DeafStays(states[i - 1], actions[i - 1]);
    }
  }

  /** The stop request is heard exactly when its notification does not fall between the test of
      stopped() and wait: of all that can follow until the watcher cannot go on by itself, either
      everything ends with the watcher past its loop, or nothing does, and join() waits for a command. */
  lemma StopHeardExactly(s: State, states: seq<State>, actions: seq<Action>)
    requires Enabled(s, StopNotify) && Run(Next(s, StopNotify), states, actions) && Unnotified(actions)
    requires var w := states[|actions|].watcher; w != Checking && w != Posting && w != Posted
    ensures states[|actions|].watcher == Done <==> s.watcher != Posting && s.watcher != Posted
  {
    if s.watcher == Posting || s.watcher == Posted {
      DeafRuns(Next(s, StopNotify), states, actions, |actions|);
    } else {
      LeavingRuns(Next(s, StopNotify), states, actions, |actions|);
    }
  }
}
